# Advent of Code 2019 solutions, modelled and verified in Dafny

This project models the core of emmericp's Rust solutions to Advent of Code
2019 and proves properties of the model:

- the Intcode processor (`src/intcode.rs`) and the day-2 processor with its
  memory held in an array;
- the shared `gcd` and `lcm` of `src/lib.rs`;
- the puzzle logic of days 1, 3, 4, 6, 8, 10, 11, 12, 14, 16, 18, 20, 22 and 24;
- the parts of Rust's `str` API the solutions rely on (module `Text`);
- Rust's fixed-width integers and truncating division (module `RustInt`).

There is one Dafny module per source file:

| module | file | source |
|---|---|---|
| `IntCode` | `intcode.dfy` | `src/intcode.rs` |
| `Lib` | `lib.dfy` | `src/lib.rs` |
| `Day1` … `Day24` | `day1.dfy` … `day24.dfy` | `src/bin/dayN.rs` |
| `Text`, `RustInt`, `Wrappers` | `text.dfy`, `rust_int.dfy`, `wrappers.dfy` | the Rust standard library behaviour the code depends on |

The modelling follows the source's form:

- Pure computations (parsers, `fuel_for_mass`, `gcd`, password checks,
  direction vectors, orbit chains, portal lookup and so on) are functions.
  Lemmas characterise them.
- Code that changes state step by step is written as methods with loops.
  Examples are the Intcode processor, the day-2 memory array, the day-12
  moon arrays, the day-22 deck shuffled in place, the day-11 hull map and
  the day-14 spare-resource table.
  - Each such method is proved equal to a specification function of its
    inputs or of the old state.
  - The properties the source promises are proved as lemmas about that
    function.
- A Rust panic becomes an `Err` result of the operation that panics instead
  of a precondition. This covers `unwrap` of `None`, an index out of range,
  integer overflow, a failed parse and a bad opcode.
- Loops that need not terminate take a `fuel: nat` step budget and report
  that they ran out. These are an Intcode `run`, `find_cycle`,
  `get_period`, the breadth-first searches and `build_product`.
- The `#[test]` functions of the source become lemmas. Each states the
  value that the test asserts.

## Model

One row per member that states something about the source. Each row gives the lines the member models and what its contract states. Helper lemmas about arithmetic and sequences have no row. The rows follow the module order of the table above.

| member | source | states |
|---|---|---|
| `IntCode.Tokens` | src/intcode.rs:34 | the program text is split at every `,` into at least one piece, and joining the pieces with `,` gives the text back |
| `IntCode.ParseEach` | src/intcode.rs:34 | each piece is trimmed and parsed as an i64, one result per piece, in order |
| `IntCode.Collect` | src/intcode.rs:34 | the memory exists iff every piece parsed; it then holds the parsed words in order; otherwise the `unwrap` panic is `BadNumber` |
| `IntCode.ParseCode` | src/intcode.rs:34 | parsing succeeds iff every comma-separated piece parses; memory then has one word per piece, each equal to its piece's value |
| `IntCode.Load` | src/intcode.rs:28-36 | `from_code` starts at ip 0, running, with no input and no output, and with the given memory |
| `IntCode.Word` | src/intcode.rs:52 | reading an index inside the memory gives that word; reading outside it is the index panic `OutOfBounds` |
| `IntCode.ModeOf` | src/intcode.rs:54-61 | a mode digit selects Immediate iff it is 1; any other digit selects Position |
| `IntCode.FetchOperand` | src/intcode.rs:44-49 | Immediate gives the raw word. Position reads the memory at that address. An address past the end, or a negative one cast to usize, is `OutOfBounds` |
| `IntCode.Decode` | src/intcode.rs:51-100 | decoding at ip past the end fails; the decoded opcode is `word % 100` (truncating); an opcode outside 1-8 and 99 is `BadOpcode(opcode)`; a destination is the raw word at its offset |
| `IntCode.DecodeOperands` | src/intcode.rs:62-96 | the source operands of a decoded instruction are the words its hundreds and thousands digits select |
| `IntCode.Assemble` | src/intcode.rs:62-97 | encoding an instruction puts its opcode in the low two digits of the first word |
| `IntCode.DecodeAssemble` | src/intcode.rs:51-100 | decoding is the inverse of encoding, at any position, whatever surrounds the instruction |
| `IntCode.DecodeAssembled` | src/intcode.rs:51-100 | memory that holds an encoded instruction at ip decodes to that instruction |
| `IntCode.ImmediateDigits` | src/intcode.rs:53-61 | a word `11xx` has opcode `xx` and both parameter modes Immediate |
| `IntCode.PerformWritesOnlyDestination` | src/intcode.rs:104-141 | Add, Mul, In, LessThan and Equals write exactly the cell `dst as usize` and no other; they advance ip by their width and keep the rest of the state. They fail on a missing input, an i64 overflow or a bad address |
| `IntCode.PerformComparisons` | src/intcode.rs:134-141 | LessThan stores 1 iff `src1 < src2`, else 0; Equals stores 1 iff the operands are equal, else 0 |
| `IntCode.PerformInputOutput` | src/intcode.rs:112-119 | In stores the input without consuming it, and panics without one; Out overwrites the output slot and leaves memory alone; both advance ip by 2 |
| `IntCode.PerformJumps` | src/intcode.rs:120-133 | JumpNotZero on a non-zero condition and JumpZero on a zero one set ip to the target cast to `usize`, which for a non-negative target is the target itself; otherwise ip moves on by 3; memory and I/O are unchanged |
| `IntCode.PerformHalt` | src/intcode.rs:142-144 | Halt only clears `running`; no other instruction changes `running` |
| `IntCode.Advance` | src/intcode.rs:148-150 | a step never changes the memory's length |
| `IntCode.RunFor` | src/intcode.rs:38-42 | `run` steps while running: a halted result is not running, a run cut short by the budget still is, and the memory keeps its length |
| `IntCode.RunForMoreFuel` | src/intcode.rs:38-42 | `run` is deterministic: a run that stops within a budget stops identically with any larger budget |
| `IntCode.RunWithMoreFuel` | src/intcode.rs:38-42 | the same for the step loop over any step function |
| `IntCode.RunWithFacts` | src/intcode.rs:38-42 | the step loop stops on a halted machine, or out of fuel on a running one, and keeps the memory's length when every step does |
| `IntCode.RunForUnroll` | src/intcode.rs:38-42 | one iteration of `run`: a failing step stops the run with its fault, and a successful one continues from the new state |
| `IntCode.RunHaltsOnHalt` | src/intcode.rs:38-42 | a running machine halts only by executing a Halt: at the final ip the memory decodes to Halt |
| `IntCode.RunWithHaltsOnHalt` | src/intcode.rs:38-42 | the step loop over a step function that stops a machine only where `Halt` decodes ends where `Halt` decodes |
| `IntCode.HaltingStep` | src/intcode.rs:142-150 | a step that stops the machine executed Halt and changed nothing else |
| `IntCode.StepAddMulExample` | src/intcode.rs:153-166 | test_step_add_mul: one step of `1,4,5,6,10,20,0` stores 30 at 6 with ip 4; with opcode 2 it stores 200 |
| `IntCode.StepAddExample` | src/intcode.rs:155-159 | the Add step of that test |
| `IntCode.StepMulExample` | src/intcode.rs:160-165 | the Mul step of that test |
| `IntCode.RunExample` | src/intcode.rs:168-177 | test_run: `1,9,10,3,2,3,11,0,99,30,40,50` halts with 3500 in cell 0 and 70 in cell 3 |
| `IntCode.RunExampleAdd` | src/intcode.rs:170-173 | its first step stores 70 in cell 3 |
| `IntCode.RunExampleMul` | src/intcode.rs:170-173 | its second step stores 3500 in cell 0 |
| `IntCode.RunExampleHalt` | src/intcode.rs:170-172 | its third step halts |
| `IntCode.ModesExample` | src/intcode.rs:187-191 | test_parameter_modes, first program: `1002,4,3,4,33` halts with 99 in cell 4 |
| `IntCode.ModesExampleStep` | src/intcode.rs:189-191 | its Mul with the second operand Immediate writes 99 over the operand cell, which then halts |
| `IntCode.EchoExample` | src/intcode.rs:179-185 | test_io: `3,0,4,0,99` outputs its input, for every input |
| `IntCode.RunTwo` | src/intcode.rs:38-42 | two steps of a run use up two units of fuel |
| `IntCode.ImmediateModesExample` | src/intcode.rs:192-194 | test_parameter_modes, second program: `1101,100,-1,4,0` halts with 99 in cell 4 |
| `IntCode.ImmediateModesExampleStep` | src/intcode.rs:192-194 | its Add with both operands Immediate writes 99 over the last cell, which then halts |
| `IntCode.PositionCompareExample` | src/intcode.rs:197-213 | test_conditions, Position-mode programs: opcode 8 outputs 1 iff the input is 8 and opcode 7 iff it is below 8, 0 otherwise, for every input |
| `IntCode.PositionCompareFirstSteps` | src/intcode.rs:211-213 | their In and comparison steps |
| `IntCode.PositionCompareLastSteps` | src/intcode.rs:211-213 | their Out and Halt steps |
| `IntCode.PositionCompareInput` | src/intcode.rs:112-115 | their In step stores the input in cell 9 |
| `IntCode.PositionCompareTest` | src/intcode.rs:134-141 | their comparison step stores `Compared(op, x)` in cell 9 |
| `IntCode.ImmediateCompareExample` | src/intcode.rs:197-214 | test_conditions, Immediate-mode programs: the same answers for `1108` and `1107` |
| `IntCode.ImmediateCompareFirstSteps` | src/intcode.rs:212-214 | their In and comparison steps |
| `IntCode.ImmediateCompareLastSteps` | src/intcode.rs:212-214 | their Out and Halt steps |
| `IntCode.ImmediateCompareInput` | src/intcode.rs:112-115 | their In step stores the input in cell 3 |
| `IntCode.ImmediateCompareTest` | src/intcode.rs:134-141 | their comparison step, with both operands Immediate, stores `Compared(op, x)` in cell 3 |
| `IntCode.IntCodeCpu.constructor` | src/intcode.rs:28-36 | a new processor's state is `Load(memory)` |
| `IntCode.IntCodeCpu.FromCode` | src/intcode.rs:28-36 | `from_code` fails (the `unwrap` panic) iff a piece of the program does not parse; otherwise it gives a new processor in the state `Load` of the parsed memory: ip 0, running, no input or output |
| `IntCode.IntCodeCpu.StoreAt` | src/intcode.rs:105-139 | writing `memory[dst as usize]` changes the fields exactly as the pure `Store` does, including its failures |
| `IntCode.IntCodeCpu.Execute` | src/intcode.rs:102-146 | `execute` changes the fields exactly as `Perform` says; on a fault the state is unchanged |
| `IntCode.IntCodeCpu.Step` | src/intcode.rs:148-150 | `step` changes the fields exactly as `Advance` says |
| `IntCode.IntCodeCpu.Run` | src/intcode.rs:38-42 | `run` reaches the state and the stop reason `RunFor` gives for the same budget |
| `Day2.StepSpec` | src/bin/day2.rs:36-57 | a step never changes the memory's length |
| `Day2.StepEffects` | src/bin/day2.rs:36-57 | a successful step had the three words after ip. Halt (99) answers false and changes nothing. Add and Mul answer true, advance ip by 4 and write the sum or product of the cells `imm1` and `imm2` name into the cell `imm3` names, and into no other cell |
| `Day2.StepFailures` | src/bin/day2.rs:37-55 | even Halt panics when the three words after ip are missing; every opcode other than 1, 2 and 99 panics |
| `Day2.StepAgreesWithIntCode` | src/bin/day2.rs:36-57 | wherever this machine steps, the Intcode processor of src/intcode.rs makes the same step from the same memory and ip |
| `Day2.RunSpec` | src/bin/day2.rs:32-34 | `run` ends only at a step that answers false, that is at a Halt |
| `Day2.RunSpecMoreFuel` | src/bin/day2.rs:32-34 | a run that ends within a budget ends identically with any larger budget |
| `Day2.IntCodeState.constructor` | src/bin/day2.rs:14-17 | a new state borrows the given memory and starts at ip 0 |
| `Day2.IntCodeState.Step` | src/bin/day2.rs:36-57 | `step` on the borrowed array changes ip and the array's contents exactly as `StepSpec` says; a failing step changes nothing |
| `Day2.IntCodeState.Run` | src/bin/day2.rs:32-34 | `run` answers what `RunSpec` says for the same budget and leaves the machine in that state |
| `Day2.StepExample` | src/bin/day2.rs:60-74 | test_step: Add stores 30 at 6 and Mul stores 200 there, both moving ip to 4 |
| `Day2.RunExample` | src/bin/day2.rs:76-90 | test_run: the program ends with 3500 in cell 0 and 70 in cell 3 |
| `Day2.RunExampleSteps` | src/bin/day2.rs:76-90 | the three steps of that run |
| `Day2.RunSpecUnroll` | src/bin/day2.rs:32-34 | one iteration of `run`: a failing step ends the run with its failure, a step answering false finishes it, and any other step continues with one unit less |
| `Lib.AbsChecked` | src/lib.rs:4-12 | `abs` succeeds iff its argument is not i64::MIN, and is then the absolute value |
| `Lib.EuclidLoop` | src/lib.rs:6-12 | the loop's answer is never negative |
| `Lib.GcdSpec` | src/lib.rs:3-13 | a zero argument returns the absolute value of the other |
| `Lib.Gcd` | src/lib.rs:3-13 | the loop of `gcd` computes `GcdSpec`, including the panics of `abs(i64::MIN)` and `i64::MIN % -1` |
| `Lib.CommonDivisorsStep` | src/lib.rs:7-9 | one step `h = a % b` keeps the set of common divisors |
| `Lib.EuclidLoopDivisors` | src/lib.rs:6-12 | the loop's answer has exactly the common divisors of its arguments |
| `Lib.GcdIsGreatestCommonDivisor` | src/lib.rs:3-13 | `gcd` is non-negative, divides both arguments, and every common divisor divides it |
| `Lib.EuclidLoopBezout` | src/lib.rs:6-12 | the loop's answer is an integer combination of its arguments |
| `Lib.BezoutStep` | src/lib.rs:7-9 | one step keeps a Bézout combination |
| `Lib.GcdBezout` | src/lib.rs:3-13 | `gcd(a, b) = s*a + t*b` for some integers `s` and `t` |
| `Lib.EuclidLoopDefined` | src/lib.rs:6-12 | away from i64::MIN the loop never panics |
| `Lib.GcdDefined` | src/lib.rs:3-13 | `gcd` panics only when an argument is i64::MIN |
| `Lib.GcdExamples` | src/lib.rs:19-23 | test_gcd: `gcd(6, 4) = 2` and `gcd(-10, -5) = 5` |
| `Lib.Lcm` | src/lib.rs:15-17 | `lcm(0, 0)` divides by `gcd(0, 0) = 0` and panics |
| `Lib.LcmIsLeastCommonMultiple` | src/lib.rs:15-17 | `lcm` is non-negative, both arguments divide it, and it divides every common multiple |
| `Lib.LcmQuotient` | src/lib.rs:16 | `abs(a*b) / gcd` is `abs(a/g * b)` and a common multiple |
| `Lib.LcmDividesCommonMultiple` | src/lib.rs:16 | with the Bézout combination of `gcd`, that quotient divides every common multiple |
| `Lib.LcmExamples` | src/lib.rs:25-29 | test_lcm: `lcm(3, 2) = 6` and `lcm(3528, 3780) = 52920` |
| `Lib.LcmExample` | src/lib.rs:16 | `lcm` is the product over the `gcd` when the product fits in i64 |
| `Day1.FuelForMass` | src/bin/day1.rs:20-22 | the fuel is 0 iff the mass is below 9; otherwise it is the largest `f` with `3*(f + 2) <= mass` |
| `Day1.FuelForMassExamples` | src/bin/day1.rs:32-36 | test_part1: mass 12 needs 2 and mass 1969 needs 654 |
| `Day1.FuelShrinks` | src/bin/day1.rs:24-30 | a positive requirement is smaller than its mass, so the recursion of `fuel_for_fuel` ends |
| `Day1.FuelForFuel` | src/bin/day1.rs:24-30 | the total is 0 iff the first requirement is 0; it is at least that requirement and at most half of the mass |
| `Day1.FuelForFuelExamples` | src/bin/day1.rs:38-42 | test_part2: `fuel_for_fuel(2) = 0` and `fuel_for_fuel(654) = 966 - 654` |
| `Day3.DecodeInstruction` | src/bin/day3.rs:18-19 | a piece decodes iff it has a first character and the rest parses as an `i64`; the direction is that character and the length that number |
| `Day3.DecodeAll` | src/bin/day3.rs:17-21 | the wire decodes iff every piece does, one instruction per piece in order; an error names a piece that fails |
| `Day3.DecodeInputString` | src/bin/day3.rs:17-21 | a decoded wire has at least one move, and no move's direction is a comma or a character beyond ASCII |
| `Day3.DecodeEncodeInstruction` | src/bin/day3.rs:18-19 | an instruction written as direction and decimal length has no comma and decodes back to itself |
| `Day3.DecodeEncode` | src/bin/day3.rs:17-21 | `decode_input_string` of a comma-joined wire gives the wire back |
| `Day3.PiecesDecode` | src/bin/day3.rs:18-19 | every piece of an encoded wire has no comma and decodes to its instruction |
| `Day3.EncodedTrimmed` | src/bin/day3.rs:18 | `trim` leaves an encoded wire unchanged |
| `Day3.DecodeAllOk` | src/bin/day3.rs:17-21 | pieces that each decode to the wire's instructions decode to the wire |
| `Day3.EncodedEnds` | src/bin/day3.rs:18 | pieces joined with commas start as the first piece starts and end as the last one ends |
| `Day3.InstructionEnds` | src/bin/day3.rs:18 | an encoded instruction starts and ends with a non-whitespace character |
| `Day3.SegmentFor` | src/bin/day3.rs:46-90 | `U`/`D` give vertical segments and `L`/`R` horizontal ones; `D`/`L` are inverted; the segment spans the length, starts where the wire is and ends where it moves to |
| `Day3.DrawSpec` | src/bin/day3.rs:39-96 | one segment per instruction |
| `Day3.DrawSegments` | src/bin/day3.rs:39-96 | `draw_segments` succeeds iff every direction is `U`, `D`, `L` or `R` and then returns `DrawSpec`; otherwise it reports an unknown direction of the wire (the `panic!` at line 91) |
| `Day3.AppendSegment` | src/bin/day3.rs:44-93 | pushing the segment of instruction `i` keeps the loop invariant |
| `Day3.DrawnAll` | src/bin/day3.rs:94-95 | after the loop the result is `DrawSpec` |
| `Day3.SegmentsConnect` | src/bin/day3.rs:41-45 | each segment starts where the previous one ends, the first at the origin, and the step counts grow by each length |
| `Day3.PastCross` | src/bin/day3.rs:112-126 | the steps left past a point of a segment are `pos - start` on an inverted segment and `end - pos` otherwise |
| `Day3.CrossingOf` | src/bin/day3.rs:103-115 | a horizontal and a vertical segment collide iff their crossing lies on both; the result is its distance from the origin and both wires' steps up to it |
| `Day3.Collision` | src/bin/day3.rs:103-129 | two segments collide iff one is horizontal, the other vertical and the crossing point lies on both; the result is its Manhattan distance from the origin and the steps of both wires up to that point |
| `Day3.RowCollisionsSound` | src/bin/day3.rs:101-130 | every collision the inner loop records comes from a segment of the second wire |
| `Day3.RowCollisionsComplete` | src/bin/day3.rs:101-130 | every collision with a segment of the second wire is recorded |
| `Day3.AllCollisionsSound` | src/bin/day3.rs:100-131 | every recorded collision comes from a pair of segments |
| `Day3.AllCollisionsComplete` | src/bin/day3.rs:100-131 | every colliding pair of segments is recorded |
| `Day3.FindCollisions` | src/bin/day3.rs:98-136 | the loops compute all collisions in order; the first is dropped when it is at the origin; no collision at all is the error of `collisions[0]` |
| `Day3.JoinFour` | src/bin/day3.rs:141-142 | four pieces joined by a separator |
| `Day3.EncodeExamples` | src/bin/day3.rs:141-142 | the test's wires written out are `U7,R6,D4,L4` and `R8,U5,L5,D3` |
| `Day3.EncodeWire` | src/bin/day3.rs:141-142 | a four-instruction wire with one-digit lengths, written out |
| `Day3.DecodeExamples` | src/bin/day3.rs:141-142 | `decode_input_string` of the two strings gives the test's wires |
| `Day3.DrawExamples` | src/bin/day3.rs:155-189 | test_draw: the segments of both wires, field by field |
| `Day3.DrawWire1` | src/bin/day3.rs:141 | the segments of the first wire |
| `Day3.DrawWire2` | src/bin/day3.rs:155-189 | the segments of `R8,U5,L5,D3`, as test_draw lists them |
| `Day3.SameFour` | src/bin/day3.rs:156 | four-element sequences equal element by element are equal |
| `Day3.DrawStep` | src/bin/day3.rs:44-93 | move `k` of a wire is drawn from where the first `k` moves end, and moves the pen on by its length |
| `Day3.CollisionExample` | src/bin/day3.rs:139-143 | test_find_collisions: the collisions of the two wires are `[(11, 30), (6, 40)]` |
| `Day3.RowExamples` | src/bin/day3.rs:140-142 | the crossings of each segment of `U7,R6,D4,L4` with the other wire: at the origin, none, `(11, 30)` and `(6, 40)` |
| `Day3.CollisionsFromRows` | src/bin/day3.rs:132-135 | with those rows, dropping the origin leaves `[(11, 30), (6, 40)]` |
| `Day3.CollisionsOfRows` | src/bin/day3.rs:100-131 | the collisions of a four-segment wire, row by row |
| `Day3.RowExample` | src/bin/day3.rs:101-130 | the collisions of one segment with the second wire |
| `Day3.RowOfFour` | src/bin/day3.rs:101-130 | the inner loop over four segments |
| `Day3.AllOfFour` | src/bin/day3.rs:100-131 | the outer loop over four segments |
| `Day4.PassToDigits` | src/bin/day4.rs:8-17 | six digits, most significant first. The last five are below 10, and so is the first for a six-digit password. Read back in base 10 they give the password |
| `Day4.IsValidPasswordPart1` | src/bin/day4.rs:19-31 | the answer is true iff the digits never decrease and some neighbouring pair is equal |
| `Day4.RunEndingAt` | src/bin/day4.rs:40-52 | the run count the second loop keeps: between 1 and the number of digits seen |
| `Day4.RunOfTwo` | src/bin/day4.rs:42-53 | a finished run has count 2 iff it is a pair not part of a longer run |
| `Day4.IsValidPasswordPart2` | src/bin/day4.rs:33-54 | the answer is true iff the digits never decrease and some pair of equal digits is not part of a longer run |
| `Day4.Part2ImpliesPart1` | src/bin/day4.rs:19-54 | every part-2 password is a part-1 password |
| `Day4.DigitsExamples` | src/bin/day4.rs:60-76 | the digits of the test passwords |
| `Day4.DigitsOf` | src/bin/day4.rs:8-17 | the six digit expressions of `pass_to_digits` give the digit sequence |
| `Day4.Part1Examples` | src/bin/day4.rs:60-66 | test_password_checker_part1: 111111 passes; 123456, 223450 and 123789 fail |
| `Day4.Part2Examples` | src/bin/day4.rs:68-76 | test_password_checker_part2: 112222 passes; 123456, 223450, 123789, 111111 and 123444 fail |
| `Day4.CountValidPasswords` | src/bin/day4.rs:56-58 | the count is at most the size of `start..=end` |
| `Day4.CountIsPassing` | src/bin/day4.rs:56-58 | the count is the number of passwords in `start..=end` the validator accepts |
| `Day6.BuildParents` | src/bin/day6.rs:15-18 | the loop that fills `parents` gives `ParentsOf(edges)`, where a later edge for the same child overwrites an earlier one |
| `Day6.ParentsOfKeys` | src/bin/day6.rs:15-18 | a name has a parent iff some edge lists it as the child |
| `Day6.ParentsOfLatest` | src/bin/day6.rs:16-17 | a child's parent is the one on its last edge |
| `Day6.DepthMoreFuel` | src/bin/day6.rs:22-25 | once a walk to the root ends within some step budget, any larger budget gives the same length |
| `Day6.DepthFuelEnough` | src/bin/day6.rs:22-25 | a walk of length d ends within d steps |
| `Day6.ChainKeyDepth` | src/bin/day6.rs:22-25 | every object passed on a walk that ends has a walk of its own that ends, no longer than the first |
| `Day6.ChainKeysCount` | src/bin/day6.rs:22-25 | the objects a walk passes through are distinct keys of the map, one per step |
| `Day6.ChainEndsIfEndsAtAll` | src/bin/day6.rs:22-25 | a walk that ends at all ends within as many steps as there are parents, and has the same length then |
| `Day6.SubsetCard` | src/bin/day6.rs:22-25 | a subset is no larger than its superset, which bounds a walk by the map's size |
| `Day6.ChainEndsStep` | src/bin/day6.rs:22-24 | a walk that ends from an object also ends from its parent, one step shorter |
| `Day6.ChainEndsUp` | src/bin/day6.rs:22-24 | conversely, a walk ends from an object if it ends from its parent, one step longer |
| `Day6.Ancestors` | src/bin/day6.rs:22-41 | the strict ancestors on the way to the root: as many as the walk takes steps, and none exactly when the object has no parent |
| `Day6.AncestorsAreParentChain` | src/bin/day6.rs:22-41 | the first ancestor is the parent, each next one is the previous one's parent, and the last has no parent |
| `Day6.AncestorDepths` | src/bin/day6.rs:22-25 | the k-th ancestor's own walk ends and is k + 1 steps shorter |
| `Day6.AncestorsDistinct` | src/bin/day6.rs:38-41 | no object appears twice among the ancestors, so each is given one distance in `visited` |
| `Day6.AncestorsSuffix` | src/bin/day6.rs:45-47 | the ancestors of the k-th ancestor are the rest of the list after it |
| `Day6.OrbitsAtLeastEdges` | src/bin/day6.rs:19-27 | the orbit count is at least the number of edges |
| `Day6.Part1` | src/bin/day6.rs:14-28 | the nested loops count exactly `Orbits`, the sum over the edges of the child's number of strict ancestors |
| `Day6.IndexFrom` | src/bin/day6.rs:41-48 | the first position at or after `from` holding a name that occurs there |
| `Day6.IndexOf` | src/bin/day6.rs:41-48 | a position holding the name, the first one |
| `Day6.FirstShared` | src/bin/day6.rs:45-50 | the first of SAN's ancestors that is also on YOU's chain, or the length when there is none |
| `Day6.Transfers` | src/bin/day6.rs:43-52 | the count fails with "no route" exactly when the two chains share no object |
| `Day6.TransfersMeetAt` | src/bin/day6.rs:35-52 | meeting at YOU's i-th and SAN's j-th ancestor, the first shared one, costs i + j + 2 |
| `Day6.Part2Spec` | src/bin/day6.rs:30-53 | `part2` with its panics as errors: a missing YOU, then a missing SAN, each reported iff it is missing |
| `Day6.RecordStep` | src/bin/day6.rs:38-42 | one turn of the first loop records the next ancestor at its distance and keeps the earlier records |
| `Day6.RecordedAll` | src/bin/day6.rs:35-42 | after the first loop, `visited` holds exactly YOU's ancestors, each at its place counted from 1 |
| `Day6.RecordDistances` | src/bin/day6.rs:35-42 | the first loop: `visited` maps exactly the ancestors of its start, each to its distance from the start |
| `Day6.MeetRecorded` | src/bin/day6.rs:43-52 | the second loop returns `Transfers` of YOU's chain and SAN's, or the "no route" panic |
| `Day6.Part2` | src/bin/day6.rs:30-53 | `part2` computes `Part2Spec` |
| `Day6.ParentsOfPrefix` | src/bin/day6.rs:16-17 | each edge adds or overwrites one entry of the map |
| `Day6.SampleParents` | src/bin/day6.rs:57-69 | the map built from the first test's edges |
| `Day6.SampleMapLinks` | src/bin/day6.rs:57-69 | the sample map's parent links |
| `Day6.SampleDepths` | src/bin/day6.rs:57-69 | the depth of each object of the sample |
| `Day6.OrbitsStep` | src/bin/day6.rs:20-26 | adding one edge adds its child's depth to the count |
| `Day6.SampleChainsEnd` | src/bin/day6.rs:57-69 | every walk of the sample ends |
| `Day6.SampleOrbitsFirst` | src/bin/day6.rs:57-69 | the first six edges make 17 orbits |
| `Day6.SampleOrbits` | src/bin/day6.rs:57-69 | the sample makes 42 orbits |
| `Day6.Part1Example` | src/bin/day6.rs:55-70 | `test_part1`: 42 orbits |
| `Day6.Sample2Parents` | src/bin/day6.rs:74-88 | the second test's map is the first one with YOU orbiting K and SAN orbiting I |
| `Day6.Sample2Links` | src/bin/day6.rs:74-88 | the second sample's links, with YOU and SAN present |
| `Day6.SampleChains` | src/bin/day6.rs:74-88 | the ancestors of K and of I |
| `Day6.SampleTransfers` | src/bin/day6.rs:74-88 | the chains of K and I meet at D, four transfers |
| `Day6.Part2Example` | src/bin/day6.rs:72-89 | `test_part2`: four transfers |
| `Day6.SameParentMap` | src/bin/day6.rs:31-34 | the map built from COM)A, A)YOU, A)SAN |
| `Day6.SameParentAsWritten` | src/bin/day6.rs:35-52 | as written, when YOU and SAN orbit the same object A, `part2` returns 2 |
| `Day6.Hops` | src/bin/day6.rs:35-52 | the intended count from each orbited object itself to the first object on both chains; no shared object iff "no route" |
| `Day6.IntendedTransfers` | src/bin/day6.rs:30-53 | the intended `part2`: missing YOU and SAN reported as in the source, then `Hops` from the objects they orbit |
| `Day6.IntendedSameParent` | src/bin/day6.rs:35-52 | intended: orbiting the same object takes no transfers |
| `Day6.SameParentIntended` | src/bin/day6.rs:35-52 | intended: the COM)A, A)YOU, A)SAN case gives 0 |
| `Day6.FirstSharedSameMembers` | src/bin/day6.rs:45-50 | the meeting point depends only on which of SAN's ancestors lie on YOU's chain |
| `Day6.HopsAgree` | src/bin/day6.rs:35-52 | with neither orbited object on the other's chain, the intended count equals the source's |
| `Day6.HopsAt` | src/bin/day6.rs:35-52 | the intended count at a known meeting point |
| `Day6.SharedAgree` | src/bin/day6.rs:45-50 | prepending objects on neither chain moves the meeting point one place |
| `Day6.InSkip` | src/bin/day6.rs:48 | a name other than the first is on a chain iff it is on the rest |
| `Day6.FirstSharedSkip` | src/bin/day6.rs:45-50 | an extra first object not on YOU's chain moves the meeting point one place |
| `Day6.IndexOfSkip` | src/bin/day6.rs:41-48 | an extra first object moves every other name's position one place |
| `Day6.IndexFromShift` | src/bin/day6.rs:41-48 | the same for a search from a given position |
| `Day6.IntendedAgreesAwayFromAncestors` | src/bin/day6.rs:30-53 | the source's count is the intended one unless one orbited object lies on the other's chain |
| `Day8.Frames` | src/bin/day8.rs:13 | `chunks(frame_size)`: no frames iff no data; every frame is non-empty and at most `frame_size` long, and all frames but the last are full |
| `Day8.FramesConcat` | src/bin/day8.rs:13 | the frames put back together are the data |
| `Day8.FrameAt` | src/bin/day8.rs:13 | frame `i` is the slice from `i * size` to the next multiple of `size` or the end of the data |
| `Day8.StartIsProduct` | src/bin/day8.rs:13 | frame `i` starts at `i * size` |
| `Day8.FrameAtStart` | src/bin/day8.rs:13 | frame `i` is the slice at its start |
| `Day8.SliceShift` | src/bin/day8.rs:13 | slicing after the first frame is slicing further on in the data |
| `Day8.FramesUnfold` | src/bin/day8.rs:13 | data longer than a frame is its first frame followed by the frames of the rest |
| `Day8.ConcatAllPixels` | src/bin/day8.rs:17-23 | the data holds only pixels iff every frame does |
| `Day8.CountPixels` | src/bin/day8.rs:14-25 | the loop over a frame succeeds iff every character is `0`, `1` or `2`, and returns how many of each there are; otherwise it reports the first other character (the `panic!` at line 22) |
| `Day8.PixelCountsSum` | src/bin/day8.rs:14-25 | the three counts of a frame of pixels add up to its length |
| `Day8.FirstMinIndex` | src/bin/day8.rs:26 | `min_by_key` picks a frame with the fewest zeros, and the first of them |
| `Day8.ZeroCounts` | src/bin/day8.rs:26 | one zero count per frame |
| `Day8.Part1Spec` | src/bin/day8.rs:12-28 | `part1` fails iff the frame size is 0 (`chunks` panics), a character is not a pixel, or there are no frames (`unwrap` panics); a product beyond `u64` is an overflow error, so a result fits in a `u64` |
| `Day8.Part1Chooses` | src/bin/day8.rs:12-28 | the result is the number of ones times the number of twos of the first frame with the fewest zeros |
| `Day8.FirstMinUnique` | src/bin/day8.rs:26 | a first minimum is unique |
| `Day8.ScanStep` | src/bin/day8.rs:13-26 | one frame more keeps the loop invariant: a strictly smaller zero count replaces the best frame |
| `Day8.ScanFails` | src/bin/day8.rs:22 | a frame with another character makes `part1` fail |
| `Day8.ScanDone` | src/bin/day8.rs:26-27 | after the last frame the best frame gives `Part1Spec` |
| `Day8.Part1` | src/bin/day8.rs:12-28 | `part1` as a loop over the frames computes `Part1Spec` |
| `Day8.CountFour` | src/bin/day8.rs:49 | the count of a character in a four-character frame |
| `Day8.Part1Example` | src/bin/day8.rs:47-50 | test_part1: `part1("01201122", 4)` is 4 |
| `Day10.AsI32` | src/bin/day10.rs:41 | `as i32` keeps a value that fits and otherwise wraps it modulo 2^32 |
| `Day10.Offset` | src/bin/day10.rs:39-40 | the offset exists iff both `i32` subtractions fit, and is then `dst - src` on each axis |
| `Day10.DivisorBound` | src/bin/day10.rs:41 | a divisor of a non-zero number is positive and at most its magnitude |
| `Day10.Gcd32` | src/bin/day10.rs:41 | `gcd` of two `i32` values never fails; it divides both, is 0 only for two zeros, is at most 2^31, and fits in `i32` unless an argument is `i32::MIN` |
| `Day10.Gcd32Facts` | src/lib.rs:3-13 | the same facts about `gcd` on the `i32` range |
| `Day10.ExactQuot` | src/bin/day10.rs:45 | dividing a multiple of a positive `g` is exact and keeps the sign, never growing the magnitude |
| `Day10.GetDirection` | src/bin/day10.rs:38-47 | the direction exists iff the offset does, and is (0, 0) exactly from an asteroid to itself |
| `Day10.GetDirectionAsWritten` | src/bin/day10.rs:38-47 | `get_direction` as written, with the gcd cast to `i32`: it fails iff the offset overflows, its divisions never overflow, and it gives (0, 0) exactly from an asteroid to itself |
| `Day10.AsWrittenAgrees` | src/bin/day10.rs:38-47 | while no offset is `i32::MIN`, the cast changes nothing and the code as written gives `GetDirection` |
| `Day10.AsWrittenQuotients` | src/bin/day10.rs:41-45 | the cast gcd is 0 only for a zero offset; otherwise both quotients fit in `i32`, and both are 0 only for a zero offset |
| `Day10.AsWrittenReverses` | src/bin/day10.rs:41-45 | from (0, 0) to (`i32::MIN`, 0) the cast gcd is `i32::MIN`, so the code as written gives (1, 0) where the reduced direction is (-1, 0) |
| `Day10.DirectionIsReduced` | src/bin/day10.rs:38-47 | a direction is the offset in lowest terms: the offset is a positive multiple of it (by the gcd), the signs agree, and its components are coprime |
| `Day10.Coprime` | src/bin/day10.rs:45 | dividing both components by their gcd leaves coprime components |
| `Day10.DirectionExamples` | src/bin/day10.rs:79-96 | test_get_directions: the directions from (2, 2) to the corners and to (0, 1) and (1, 1) |
| `Day10.MapOk` | src/bin/day10.rs:50-60 | mapping a fallible function over a list succeeds iff it succeeds on every element, keeps order and length, and otherwise reports an element's error |
| `Day10.GetDirections` | src/bin/day10.rs:49-51 | one direction per asteroid, in order; it fails iff one of them does |
| `Day10.VisibleAsteroids` | src/bin/day10.rs:53-55 | the count exists iff every direction does and the map is not empty, and is then the number of distinct directions less one; with no asteroids the `usize` subtraction underflows |
| `Day10.VisibleCountsOthers` | src/bin/day10.rs:53-55 | for a station on the map the count is the number of distinct directions to the other asteroids |
| `Day10.DistinctLessOrigin` | src/bin/day10.rs:54 | the station's own (0, 0) is the one direction taken off |
| `Day10.LastMaxIndex` | src/bin/day10.rs:58-60 | `max_by_key` picks a largest value, and the last of them |
| `Day10.FindBestAsteroid` | src/bin/day10.rs:57-61 | an empty map is the `unwrap` panic; the search succeeds iff the map is not empty and the directions from every station exist, and the best station is then one of the asteroids |
| `Day10.BestSeesMost` | src/bin/day10.rs:57-61 | the best station sees at least as many asteroids as any other and more than every one listed after it |
| `Day10.AllSeeOk` | src/bin/day10.rs:57-60 | over a non-empty map every station's count exists iff every station's directions do |
| `Day10.NonNegativeDirections` | src/bin/day10.rs:38-77 | asteroids at non-negative coordinates never make a direction overflow |
| `Day10.GetDirectionsAsWritten` | src/bin/day10.rs:49-51 | `get_directions` over the code as written: it fails iff some offset overflows, and otherwise gives one direction per asteroid, in order |
| `Day10.MapOkAgree` | src/bin/day10.rs:50 | mapping two functions that agree on every element gives the same result |
| `Day10.DirectionsAgree` | src/bin/day10.rs:38-51 | while no offset to the station is `i32::MIN`, the directions as written are the model's |
| `Day10.ParsedDirectionsAgree` | src/bin/day10.rs:38-51 | on a map of non-negative coordinates, all that `parse_map` gives, the directions as written are the model's from every station |
| `Day10.VisibleAsWrittenDiffers` | src/bin/day10.rs:53-55 | from (0, 0) over [(0, 0), (1, 0), (`i32::MIN`, 0)] the code as written counts 1 visible asteroid where the model counts 2 |
| `Day10.RowAsteroidsMembers` | src/bin/day10.rs:67-73 | the row's asteroids are exactly its `#` columns |
| `Day10.AsteroidsUpToMembers` | src/bin/day10.rs:66-75 | the asteroids of the first rows are exactly their `#` cells |
| `Day10.AsteroidsMembers` | src/bin/day10.rs:63-77 | the parsed map holds exactly the `#` cells, as (column, row) |
| `Day10.ConcatInOrder` | src/bin/day10.rs:66-75 | two lists in reading order, each entry of the first before each of the second, stay in order joined |
| `Day10.RowAsteroidsOrdered` | src/bin/day10.rs:68-73 | a row's asteroids come left to right |
| `Day10.AsteroidsUpToOrdered` | src/bin/day10.rs:66-75 | the first rows' asteroids come in reading order |
| `Day10.AsteroidsOrdered` | src/bin/day10.rs:63-77 | the parsed map lists its asteroids in reading order |
| `Day10.ParseMap` | src/bin/day10.rs:63-77 | `parse_map` succeeds iff the rows and columns fit the `i32` counters, and then returns `Asteroids` of the trimmed text's lines |
| `Day11.GetValue` | src/bin/day11.rs:76-81 | a colour's value is 0 for black and 1 for white |
| `Day11.GetGrayscale` | src/bin/day11.rs:82-87 | a colour's grey level is 0 for black and 255 for white |
| `Day11.ColorFrom` | src/bin/day11.rs:90-98 | `Color::from` accepts exactly 0 and 1, inverting `get_value`; any other value is the error of the `panic!` |
| `Day11.ColorRoundTrip` | src/bin/day11.rs:76-98 | `Color::from(c.get_value())` is `c` |
| `Day11.TurnFrom` | src/bin/day11.rs:135-143 | `Turn::from` accepts exactly 0 (left) and 1 (right); any other value is the error |
| `Day11.Clockwise` | src/bin/day11.rs:100-105 | the four directions in clockwise order |
| `Day11.ClockwiseInjective` | src/bin/day11.rs:100-105 | the clockwise position tells the directions apart |
| `Day11.TurnTo` | src/bin/day11.rs:107-128 | a right turn moves one place clockwise and a left turn one place anticlockwise |
| `Day11.TurnBack` | src/bin/day11.rs:107-128 | turning one way and then the other returns to the start |
| `Day11.FourTurns` | src/bin/day11.rs:107-128 | four turns the same way return to the start, and a single turn always changes the direction |
| `Day11.TwoTurns` | src/bin/day11.rs:107-128 | two left turns face the same way as two right turns |
| `Day11.PaintedOf` | src/bin/day11.rs:67-152 | the painted panels are the pairs `(x, y)` with an entry in the nested map |
| `Day11.PaintingEffects` | src/bin/day11.rs:150-152 | painting a panel adds exactly that panel to the painted ones and sets its colour, leaving every other panel's colour alone |
| `Day11.Hull.constructor` | src/bin/day11.rs:10 | a new hull has no painted panels |
| `Day11.Hull.Painted` | src/bin/day11.rs:67 | the painted panels of the hull |
| `Day11.Hull.GetColor` | src/bin/day11.rs:146-148 | `get_color` is black for a panel never painted and the stored colour otherwise |
| `Day11.Hull.SetColor` | src/bin/day11.rs:150-152 | `set_color` stores the colour and returns the previous one, which is `None` exactly for a panel not painted before; no other panel changes, and the painted set grows by that panel |
| `Day12.Plus` | src/bin/day12.rs:119-137 | `Add` and `AddAssign` add component by component |
| `Day12.Energy` | src/bin/day12.rs:94-96 | the energy of a vector is never negative, is 0 iff the vector is zero, and bounds the absolute value of every component |
| `Day12.GetEnergy` | src/bin/day12.rs:81-83 | a body's energy is 0 iff its position or its velocity is zero |
| `Day12.ProductZero` | src/bin/day12.rs:82 | potential times kinetic is 0 iff one factor is |
| `Day12.Pull` | src/bin/day12.rs:100-114 | the adjustment is 1 iff the body is below the other, 0 iff they are level and -1 iff it is above |
| `Day12.PullAntisymmetric` | src/bin/day12.rs:100-114 | `adj(p, q) = -adj(q, p)` |
| `Day12.GravityAdjustment` | src/bin/day12.rs:98-116 | `get_gravity_adjustment` applies that rule on every axis |
| `Day12.GravityAdjustmentAntisymmetric` | src/bin/day12.rs:98-116 | the adjustments of a pair of bodies cancel |
| `Day12.Positions` | src/bin/day12.rs:164 | the positions the first loop reads |
| `Day12.Step1dSpec` | src/bin/day12.rs:160-176 | a step keeps the number of bodies |
| `Day12.Step1d` | src/bin/day12.rs:160-176 | `step_1d` in place gives `Step1dSpec` of the old bodies: every velocity first changes by the pulls of the pre-step positions, and then every position moves by its new velocity |
| `Day12.Gravitate1d` | src/bin/day12.rs:161-172 | the first loop updates every velocity and no position |
| `Day12.PullOne1d` | src/bin/day12.rs:162-171 | one pass of the inner loop pulls body `i` toward every other body |
| `Day12.Move1d` | src/bin/day12.rs:173-175 | the second loop moves every body by its velocity |
| `Day12.PullStep1d` | src/bin/day12.rs:163-170 | one pull keeps the loop invariant |
| `Day12.PullSkip1d` | src/bin/day12.rs:163 | a body is not pulled toward itself |
| `Day12.PulledNext1d` | src/bin/day12.rs:161-162 | finishing body `i` moves on to body `i + 1` |
| `Day12.PulledAll1d` | src/bin/day12.rs:161-173 | after the first loop every velocity is updated |
| `Day12.MoveStep1d` | src/bin/day12.rs:174 | one move keeps the loop invariant |
| `Day12.MovedAll1d` | src/bin/day12.rs:173-176 | after the second loop the bodies are `Step1dSpec` of the old ones |
| `Day12.TotalGravityGrow` | src/bin/day12.rs:161-172 | the total pull grows by one body's pulls at a time |
| `Day12.GravityOnIsPullsToward` | src/bin/day12.rs:165-169 | the pull on a body is minus the pulls toward it |
| `Day12.GravityCancels` | src/bin/day12.rs:161-172 | the pulls among all bodies cancel in pairs |
| `Day12.VelocitySumOfStep` | src/bin/day12.rs:161-172 | a step adds the total pull to the sum of velocities |
| `Day12.VelocitySumPreserved` | src/bin/day12.rs:160-176 | `step_1d` keeps the sum of the velocities |
| `Day12.BodyPositions` | src/bin/day12.rs:143 | the positions the first loop of `step` reads |
| `Day12.GravityGrow` | src/bin/day12.rs:141-147 | the summed adjustment grows by one other body at a time |
| `Day12.StepSpec` | src/bin/day12.rs:139-152 | a step keeps the number of bodies |
| `Day12.Step` | src/bin/day12.rs:139-152 | `step` in place gives `StepSpec` of the old bodies |
| `Day12.Gravitate` | src/bin/day12.rs:140-148 | the first loop of `step` updates every velocity and no position |
| `Day12.PullOne` | src/bin/day12.rs:141-147 | one pass of its inner loop |
| `Day12.Move` | src/bin/day12.rs:149-151 | `apply_velocity` on every body |
| `Day12.PullStep` | src/bin/day12.rs:142-146 | one adjustment keeps the loop invariant |
| `Day12.PullSkip` | src/bin/day12.rs:142 | a body is not adjusted toward itself |
| `Day12.PulledNext` | src/bin/day12.rs:140-141 | finishing body `i` moves on to body `i + 1` |
| `Day12.PulledAll` | src/bin/day12.rs:140-149 | after the first loop every velocity is updated |
| `Day12.MoveStep` | src/bin/day12.rs:77-79 | one `apply_velocity` keeps the loop invariant |
| `Day12.MovedAll` | src/bin/day12.rs:149-152 | after the second loop the bodies are `StepSpec` of the old ones |
| `Day12.Project` | src/bin/day12.rs:25-42 | one axis of bodies in space, as the 1-D bodies of that axis |
| `Day12.GravityComponent` | src/bin/day12.rs:143-169 | one component of the summed adjustment is the 1-D pull on that axis |
| `Day12.StepIsStep1dPerAxis` | src/bin/day12.rs:139-176 | `step` on bodies in space is `step_1d` on each axis by itself |
| `Day12.IterateIsIterate1dPerAxis` | src/bin/day12.rs:17-61 | `n` steps in space are `n` steps of `step_1d` on each axis by itself |
| `Day12.ReturnsIffEveryAxisReturns` | src/bin/day12.rs:43-61 | the bodies are back at a state after `n` steps iff each of the three axes is, which is what lets `part2` work out a period per axis |
| `Day12.Iterate1d` | src/bin/day12.rs:54-56 | repeated steps keep the number of bodies |
| `Day12.GetPeriod` | src/bin/day12.rs:49-61 | `get_period` returns the least `k >= 1` after which the bodies are back at their initial state; no result means no such `k` within the budget |
| `Day12.Step1dExample` | src/bin/day12.rs:199-213 | test_1d: body 3 has velocity -1 and position 2 after one step, and position 1 after two |
| `Day12.Iterate` | src/bin/day12.rs:17-19 | repeated steps keep the number of bodies |
| `Day12.Combine` | src/bin/day12.rs:25-42 | bodies in space built from their three axes project back to those axes |
| `Day12.ProjectInjective` | src/bin/day12.rs:63-67 | bodies are determined by their three axes |
| `Day12.StepOfFour` | src/bin/day12.rs:160-176 | `step_1d` on four bodies, written out |
| `Day12.ExampleAxesStep0` | src/bin/day12.rs:178-197 | step 1 of test_example1, axis by axis |
| `Day12.ExampleAxesStep1` | src/bin/day12.rs:178-197 | step 2 of that test |
| `Day12.ExampleAxesStep2` | src/bin/day12.rs:178-197 | step 3 of that test |
| `Day12.ExampleAxesStep3` | src/bin/day12.rs:178-197 | step 4 of that test |
| `Day12.ExampleAxesStep4` | src/bin/day12.rs:178-197 | step 5 of that test |
| `Day12.ExampleAxesStep5` | src/bin/day12.rs:178-197 | step 6 of that test |
| `Day12.ExampleAxesStep6` | src/bin/day12.rs:178-197 | step 7 of that test |
| `Day12.ExampleAxesStep7` | src/bin/day12.rs:178-197 | step 8 of that test |
| `Day12.ExampleAxesStep8` | src/bin/day12.rs:178-197 | step 9 of that test |
| `Day12.ExampleAxesStep9` | src/bin/day12.rs:178-197 | step 10 of that test |
| `Day12.StepFromAxes` | src/bin/day12.rs:186-194 | a step in space from the steps of its three axes |
| `Day12.IterateOnce` | src/bin/day12.rs:192-194 | one more step of the loop |
| `Day12.ExampleIterate` | src/bin/day12.rs:186-194 | test_example1: the states after 1, 2 and 10 steps |
| `Day12.ExampleStart` | src/bin/day12.rs:180-185 | the test's four bodies at rest |
| `Day12.ExampleBodyThree` | src/bin/day12.rs:187-191 | body 3 after one step (velocity (-1,-3,1), position (2,2,0)) and after two (velocity (-1,-6,2), position (1,-4,2)) |
| `Day12.ExampleEnergy` | src/bin/day12.rs:195-196 | the total energy after ten steps is 179 |
| `Day12.EnergyExample` | src/bin/day12.rs:178-197 | test_example1: ten steps of the test's bodies leave a total energy of 179 |
| `Day14.ParseEntry` | src/bin/day14.rs:85-91 | an entry is its first two words, a count that must parse as `i32` and a name; fewer words or a bad count is the `unwrap` panic |
| `Day14.ParseEntries` | src/bin/day14.rs:99 | the comma-separated inputs parse one entry per piece, failing at the first bad piece |
| `Day14.ParseReaction` | src/bin/day14.rs:93-101 | a line splits at `=>` (a line without it is the panic) into at least one input and one output |
| `Day14.ParseLines` | src/bin/day14.rs:104 | one reaction per line, in order, failing at the first bad line |
| `Day14.KeyByProduct` | src/bin/day14.rs:104 | collecting into a map keys each reaction under its own product |
| `Day14.ParseReactions` | src/bin/day14.rs:103-105 | `parse_reactions` keys every parsed reaction under its product |
| `Day14.KeyByProductKeys` | src/bin/day14.rs:104 | the keys are exactly the reactions' products |
| `Day14.KeyByProductLatest` | src/bin/day14.rs:104 | a later reaction for the same product replaces an earlier one |
| `Day14.FormattedLines` | src/bin/day14.rs:103-105 | the printed input holds one line per reaction |
| `Day14.IntToStringAvoids` | src/bin/day14.rs:86-89 | a printed count holds no separator, newline or whitespace |
| `Day14.EntryAvoids` | src/bin/day14.rs:94-99 | a printed entry holds no `,`, `=` or newline |
| `Day14.InputsAvoid` | src/bin/day14.rs:94-99 | a printed input list holds no `=` or newline |
| `Day14.EntryWords` | src/bin/day14.rs:86 | the words of a printed entry are its count and its name |
| `Day14.ParseEntryPadded` | src/bin/day14.rs:85-91 | an entry parses back through any leading whitespace and a trailing space |
| `Day14.ParseEntriesCons` | src/bin/day14.rs:99 | parsing a list whose head and tail parse gives the head's entry and then the tail's |
| `Day14.InputsText` | src/bin/day14.rs:99 | the printed inputs split at their first comma into the first entry and the rest |
| `Day14.ParseInputsRoundTrip` | src/bin/day14.rs:99 | the printed inputs, with the space before `=>`, parse back to the same entries |
| `Day14.ParseLastInput` | src/bin/day14.rs:99 | a single printed input parses back |
| `Day14.ParseInputsStep` | src/bin/day14.rs:99 | if the rest of a printed list parses back, so does the whole list |
| `Day14.ReactionText` | src/bin/day14.rs:94 | a printed reaction is its inputs and its output joined by `=>` |
| `Day14.ParseReactionRoundTrip` | src/bin/day14.rs:93-101 | printing a reaction and parsing it gives the reaction back |
| `Day14.ParseReactionIndented` | src/bin/day14.rs:85-101 | leading whitespace on a line, as in the indented tests, changes nothing |
| `Day14.ParseLinesRoundTrip` | src/bin/day14.rs:104 | printed lines parse back to the reactions, in order |
| `Day14.ParseLinesEach` | src/bin/day14.rs:104 | lines that each parse give their reactions in order |
| `Day14.FormatReactionShape` | src/bin/day14.rs:104 | a printed reaction starts and ends with a non-space character and holds no newline |
| `Day14.InputsStart` | src/bin/day14.rs:104 | a printed input list starts with a non-space character |
| `Day14.ParseReactionsRoundTrip` | src/bin/day14.rs:103-105 | printing reactions one per line and parsing the text gives them back, keyed by product |
| `Day14.LinesShape` | src/bin/day14.rs:104 | every printed line starts and ends with a non-space character |
| `Day14.TextUntrimmed` | src/bin/day14.rs:104 | `trim` leaves such lines joined by newlines unchanged |
| `Day14.Reserve` | src/bin/day14.rs:43-61 | `entry(..).or_insert(0)` adds the key and changes no amount |
| `Day14.Run` | src/bin/day14.rs:41-68 | the `while` loop stops only with an empty `todo` stack |
| `Day14.Step` | src/bin/day14.rs:42-67 | one iteration panics (the `unwrap` on a missing reaction) iff the spare does not cover the popped request and the product has no reaction |
| `Day14.BuildProductSpec` | src/bin/day14.rs:32-70 | a result leaves the `todo` stack empty, and a request the spare table covers is served from it alone, with no ORE and no reaction |
| `Day14.UseInputKeepsNonNegative` | src/bin/day14.rs:49-57 | using one input leaves no spare amount negative |
| `Day14.UseInputsKeepsNonNegative` | src/bin/day14.rs:48-59 | neither does the whole `for` loop |
| `Day14.StepKeepsNonNegative` | src/bin/day14.rs:42-67 | a step leaves no spare amount negative: an amount is taken only when the spare covers it |
| `Day14.RunKeepsNonNegative` | src/bin/day14.rs:41-68 | nor does the whole loop |
| `Day14.BuildProductKeepsNonNegative` | src/bin/day14.rs:32-70 | `build_product` keeps the shared table free of negative amounts |
| `Day14.StepCovered` | src/bin/day14.rs:43-45 | a request the spare covers is taken from spare alone |
| `Day14.UseInputCovered` | src/bin/day14.rs:52-54 | an input the spare covers is taken from spare alone |
| `Day14.UseInputShort` | src/bin/day14.rs:52-56 | an input the spare does not cover is pushed on the stack and changes no amount |
| `Day14.UseInputsKeepsRan` | src/bin/day14.rs:48-59 | using inputs runs no reaction |
| `Day14.StepRunsReaction` | src/bin/day14.rs:46-66 | an uncovered request runs its reaction once: the surplus goes to spare and the shortfall back on the stack |
| `Day14.PendingPush` | src/bin/day14.rs:56-65 | pushing a request adds its count to what is pending |
| `Day14.RanPush` | src/bin/day14.rs:47-48 | running one more reaction adds its consumption and its output |
| `Day14.UseInputsNet` | src/bin/day14.rs:48-59 | the `for` loop lowers the stock net of pending requests by exactly what the inputs consume, and adds their ORE |
| `Day14.StepKeepsBalance` | src/bin/day14.rs:42-67 | a step keeps the mass balance of every chemical but ORE, and the ORE counted is the ORE consumed |
| `Day14.CoveredKeepsBalance` | src/bin/day14.rs:43-45 | a step served from spare keeps the balance and counts no ORE |
| `Day14.RunKeepsBalanceStep` | src/bin/day14.rs:46-66 | a step that runs a reaction keeps the balance |
| `Day14.RunBalance` | src/bin/day14.rs:46-66 | a reaction run changes stock net of pending by its output less what was asked, minus its inputs, and counts its ORE |
| `Day14.RunKeepsBalance` | src/bin/day14.rs:41-68 | the whole loop keeps the balance |
| `Day14.BuildProductBalance` | src/bin/day14.rs:32-70 | the spare left of any chemical but ORE is what was there plus what the reactions run made, minus what they used and what was asked; the ORE returned is the ORE they used |
| `Day14.SpareResources.constructor` | src/bin/day14.rs:8-9 | a new table is empty |
| `Day14.SpareResources.BuildProduct` | src/bin/day14.rs:32-70 | `build_product` returns the ORE of `BuildProductSpec` (or its error) and leaves the table as the specification's final state |
| `Day14.SpareResources.Serve` | src/bin/day14.rs:42-67 | one iteration of the `while` loop is one `Step` |
| `Day14.SpareResources.UseReactionInputs` | src/bin/day14.rs:48-59 | the `for` loop computes `UseInputs` |
| `Day14.ExampleParses` | src/bin/day14.rs:124-131 | the text of `test_example1` parses to its six reactions |
| `Day14.ExampleValid` | src/bin/day14.rs:124-131 | the example's reactions use printable names |
| `Day14.ExampleFormatted` | src/bin/day14.rs:124-131 | the example text is the printed form of its reactions |
| `Day14.SmallNumbers` | src/bin/day14.rs:124-131 | the counts of the example print as their digits |
| `Day14.SmallEntries` | src/bin/day14.rs:124-131 | the example's entries print as in the test |
| `Day14.OneInput` | src/bin/day14.rs:125-126 | a one-input reaction prints as `a => out` |
| `Day14.TwoInputs` | src/bin/day14.rs:127-130 | a two-input reaction prints as `a, b => out` |
| `Day14.ExampleLinesOre` | src/bin/day14.rs:125-126 | the example's first two lines |
| `Day14.ExampleLinesPair` | src/bin/day14.rs:127-128 | its third and fourth lines |
| `Day14.ExampleLinesPairFurther` | src/bin/day14.rs:129-130 | its last two lines |
| `Day14.JoinSix` | src/bin/day14.rs:104 | six lines joined by a separator |
| `Day14.RunStep` | src/bin/day14.rs:41-42 | with a non-empty stack, the loop is one step followed by the rest |
| `Day14.ExampleLookups` | src/bin/day14.rs:124-131 | the example's reactions looked up by product |
| `Day14.ServeFromSpare` | src/bin/day14.rs:43-45 | a request served from spare, stated on the stack and the table |
| `Day14.StepOreReaction` | src/bin/day14.rs:46-66 | a step that runs a reaction whose only input is ORE |
| `Day14.StepPairReaction` | src/bin/day14.rs:46-66 | a step that runs a one-unit reaction of two uncovered inputs |
| `Day14.ExampleOneA` | src/bin/day14.rs:132 | `build_product("A", 1)` on the parsed example needs 10 ORE |
| `Day14.OneARun` | src/bin/day14.rs:132 | the same on any table holding the example's reactions |
| `Day14.ExampleElevenA` | src/bin/day14.rs:133 | `build_product("A", 11)` needs 20 ORE |
| `Day14.ElevenARun` | src/bin/day14.rs:133 | the same on any table holding the example's reactions |
| `Day14.FuelDescends` | src/bin/day14.rs:127-134 | FUEL and E each ask for 7 A and one unit of the next product down |
| `Day14.FuelDescendsFurther` | src/bin/day14.rs:127-134 | as do D and C |
| `Day14.FuelClimbs` | src/bin/day14.rs:125-134 | B costs 1 ORE and one run of A costs 10, leaving 3 A |
| `Day14.FuelClimbsFurther` | src/bin/day14.rs:125-134 | two more runs of A bring the ORE to 31 and empty the stack |
| `Day14.FuelRun` | src/bin/day14.rs:134 | `build_product("FUEL", 1)` needs 31 ORE on any table holding the example's reactions |
| `Day14.ExampleFuel` | src/bin/day14.rs:122-135 | `test_example1`: the parsed example needs 31 ORE for one FUEL |
| `Day16.PatternAt` | src/bin/day16.rs:46-49 | every entry of the repeating pattern is 0, 1 or -1 |
| `Day16.NextValue` | src/bin/day16.rs:46-49 | `next` panics iff `state + 1` overflows i32 (the overflow error), `digit` is 0, or the truncated remainder is negative; every positive `digit` without overflow gives a value, an entry of the base pattern `[0, 1, 0, -1]` |
| `Day16.FftParams.constructor` | src/bin/day16.rs:36-41 | `fft_params(digit)` starts with state 0 |
| `Day16.FftParams.Next` | src/bin/day16.rs:46-49 | `next` yields `NextValue` of the old state and advances the state by one |
| `Day16.NextValueIsPattern` | src/bin/day16.rs:46-49 | for a positive digit the `k`-th value is entry `(k + 1) / digit % 4` of the base pattern |
| `Day16.Take` | src/bin/day16.rs:66-76 | `take(n)` of the iterator succeeds iff `n` fits in i32, and is then the first `n` pattern entries |
| `Day16.TakeExamples` | src/bin/day16.rs:66-76 | test_fft_params: the first 7 values for digit 1 and the first 15 for digit 2 |
| `Day16.Phase` | src/bin/day16.rs:52-56 | a phase keeps the length, and every output is a digit: the last digit of the absolute weighted sum |
| `Day16.WeightedInSecondHalf` | src/bin/day16.rs:24-26 | in the second half the weighted sum for position `i` is the plain sum of `digits[i..]` |
| `Day16.PatternInSecondHalf` | src/bin/day16.rs:48 | before position `2i + 1` the pattern for output `i` is 0 before `i` and 1 from `i` on |
| `Day16.SumAppend` | src/bin/day16.rs:25 | the suffix sum grows by the appended digit |
| `Day16.SuffixPhase` | src/bin/day16.rs:24-26 | part 2's update keeps the length, and every output is the last digit of an absolute suffix sum |
| `Day16.SuffixPhaseIsPhase` | src/bin/day16.rs:18-29 | in the second half, where part 2 works, the suffix update computes what a full phase computes |
| `Day16.RunPhases` | src/bin/day16.rs:12-27 | the 100-round loops apply the update the given number of times; after a round every entry is a digit |
| `Day16.PhaseEntry` | src/bin/day16.rs:54 | an output of a phase from its weighted sum |
| `Day16.PhaseExample1` | src/bin/day16.rs:84-87 | output 0 of the test phase |
| `Day16.PhaseExample2` | src/bin/day16.rs:84-87 | output 1 of the test phase |
| `Day16.PhaseExample3` | src/bin/day16.rs:84-87 | output 2 of the test phase |
| `Day16.PhaseExample4` | src/bin/day16.rs:84-87 | output 3 of the test phase |
| `Day16.PhaseExample5` | src/bin/day16.rs:84-87 | output 4 of the test phase |
| `Day16.PhaseExample6` | src/bin/day16.rs:84-87 | output 5 of the test phase |
| `Day16.PhaseExample7` | src/bin/day16.rs:84-87 | output 6 of the test phase |
| `Day16.PhaseExample8` | src/bin/day16.rs:84-87 | output 7 of the test phase |
| `Day16.PhaseExample` | src/bin/day16.rs:84-87 | test_phases: one phase turns 12345678 into 48226158 |
| `Day16.ExampleOutput` | src/bin/day16.rs:86 | the eight digits make up that output |
| `Day16.ParseDigits` | src/bin/day16.rs:58-60 | parsing succeeds iff every character is a decimal digit, with one value per character; otherwise the error is a non-digit of the text |
| `Day16.DigitsToStr` | src/bin/day16.rs:62-64 | digits print as one character each |
| `Day16.DigitsRoundTrip` | src/bin/day16.rs:58-64 | printing parsed digits gives back the text |
| `Day16.DigitsToStrRoundTrip` | src/bin/day16.rs:58-64 | parsing printed digits gives back the digits |
| `Day16.ParseDigitsExample` | src/bin/day16.rs:78-82 | test_parse_digits: "01234" parses to `[0, 1, 2, 3, 4]` and prints back |
| `Day16.Part1` | src/bin/day16.rs:10-16 | `part1` trims and parses the input and applies 100 phases; a bad digit panics |
| `Day18.TileFrom` | src/bin/day18.rs:23-33 | `.` and `@` give Empty, `#` Wall, `A`-`Z` a Door and `a`-`z` a Key of that letter, each iff; any other character panics with that character |
| `Day18.TileFromWellFormed` | src/bin/day18.rs:23-33 | a parsed tile has an upper-case door or a lower-case key |
| `Day18.ToAsciiLowercase` | src/bin/day18.rs:74-83 | `to_ascii_lowercase` maps `A`-`Z` to `a`-`z` and keeps every other character |
| `Day18.BitmapIndexFor` | src/bin/day18.rs:122-124 | a lower-case key gets bit `key - 'a'`, below 26; a character below `a` underflows the u32 subtraction, and bit 64 or more overflows the shift |
| `Day18.BitmapIndexInjective` | src/bin/day18.rs:122-124 | distinct keys get distinct bits |
| `Day18.ContainsSpec` | src/bin/day18.rs:126-128 | `contains(k)` is true iff the bit of `k` is set |
| `Day18.InsertSpec` | src/bin/day18.rs:130-134 | `insert(k)` answers whether `k`'s bit was clear, and sets that bit and no other |
| `Day18.InsertKeepsOthers` | src/bin/day18.rs:122-134 | after `insert(k)` the bitmap holds `k`, and every other key is held iff it was held before |
| `Day18.BitmapKey.New` | src/bin/day18.rs:136-140 | `new` holds no key |
| `Day18.BitmapKey.Contains` | src/bin/day18.rs:126-128 | `contains` on the object is `ContainsSpec` of its bits |
| `Day18.BitmapKey.Insert` | src/bin/day18.rs:130-134 | `insert` updates the bits and answers as `InsertSpec` says |
| `Day18.BitmapKeyExample` | src/bin/day18.rs:268-278 | test_bitmap_key: neither `a` nor `z` is held at first; the first insert of `a` is new and the second is not; `z` is new; both are held at the end |
| `Day18.CellsInBounds` | src/bin/day18.rs:62 | a position is a cell of the map iff `map[y][x]` exists |
| `Day18.TargetsAdjacent` | src/bin/day18.rs:56-61 | the four targets share an edge with the position |
| `Day18.Explore` | src/bin/day18.rs:62-97 | one target of the loop body: it panics iff the target is off the map. Otherwise the target is marked visited unless it is the entry's come-from cell or was visited, and it is queued exactly when it is also passable with the keys held. A move is recorded only for a new key tile, at one step further, and every unheld key reached is recorded. The step keeps the invariants: every queued entry ends a walk of its step count through passable tiles, and every move is an unheld key on its tile |
| `Day18.ExtendWalk` | src/bin/day18.rs:66-70 | a walk to the dequeued entry, one step longer, reaches the target |
| `Day18.QueuePush` | src/bin/day18.rs:66-88 | queueing a passable tile keeps the queue's invariant |
| `Day18.MovesAdd` | src/bin/day18.rs:90 | recording an unheld key on its own tile keeps the moves' invariant |
| `Day18.CountAfterVisit` | src/bin/day18.rs:63 | inserting a new position into `visited` leaves one fewer unvisited cell, so the search ends |
| `Day18.LevelledPop` | src/bin/day18.rs:55 | the queue's step counts never decrease and span two levels |
| `Day18.LevelledPush` | src/bin/day18.rs:66-88 | entries are queued one step after the dequeued one, which keeps that order |
| `Day18.FindPossibleMoves` | src/bin/day18.rs:35-101 | every returned move is a key not held. Its position holds that key's tile, its step count is at least 1, and a walk of exactly that many steps leads there from the start. Every position strictly between the ends of that walk is empty, an opened door or a held key, never a wall |
| `Day20.TileFrom` | src/bin/day20.rs:98-109 | `.` and `@` are empty, `#` and space are walls, `-` is the target, a lower-case letter or digit is a portal of that kind, and any other character is the "bad map tile" panic |
| `Day20.TileCharRoundTrip` | src/bin/day20.rs:98-109 | every tile the conversion produces has a character that converts back to it |
| `Day20.TileFromRoundTrip` | src/bin/day20.rs:98-109 | every accepted character spells its tile, `@` being an alias for `.` |
| `Day20.ParseRowOk` | src/bin/day20.rs:129-130 | a line converts iff all its characters are map characters, and then tile by tile |
| `Day20.ParseRows` | src/bin/day20.rs:126-132 | one row of tiles per line |
| `Day20.ParseRowsOk` | src/bin/day20.rs:126-132 | each row is its own line converted |
| `Day20.ParseMapTiles` | src/bin/day20.rs:126-132 | the parsed grid holds at `(x, y)` the tile of the text's character there |
| `Day20.ParseRowsShape` | src/bin/day20.rs:126-132 | each converted row is as long as its line |
| `Day20.ParseMap` | src/bin/day20.rs:126-132 | a parsed map has one row per line of the text, each as long as its line |
| `Day20.IndexOf` | src/bin/day20.rs:139 | a column from the start column on, or the line's length |
| `Day20.IndexOfFirst` | src/bin/day20.rs:139 | it is the first column holding the character, or the length when none does |
| `Day20.LineWith` | src/bin/day20.rs:137 | a line from the start line on, or the number of lines |
| `Day20.LineWithFirst` | src/bin/day20.rs:137 | it is the first line containing the character, or the count when none does |
| `Day20.FindStartPosFirst` | src/bin/day20.rs:134-141 | `find_start_pos` gives the first `@` in reading order, and fails (the `unwrap` panic) iff no line has one |
| `Day20.FindStartPos` | src/bin/day20.rs:134-141 | no position (the `unwrap` panic) iff no line holds `@`; otherwise a position on the text whose character is `@` |
| `Day20.ScanRow` | src/bin/day20.rs:114-119 | a hit in a row lies in that row |
| `Day20.ScanRowFirst` | src/bin/day20.rs:114-119 | the scan of a row finds its first twin from the given column on, or reports none |
| `Day20.ScanRowsFirst` | src/bin/day20.rs:113-121 | the scan of the rows finds the first twin in reading order, or reports none |
| `Day20.OtherPortalFirst` | src/bin/day20.rs:111-124 | `find_other_portal` gives the first other tile of the same portal in reading order; it fails off the grid, or when `pos` is no portal or has no twin |
| `Day20.TwinsFindEachOther` | src/bin/day20.rs:111-124 | of a pair of portal tiles, each finds the other |
| `Day20.TwinFound` | src/bin/day20.rs:111-124 | the first half of that |
| `Day20.FindOtherPortal` | src/bin/day20.rs:111-124 | the nested loops with their early return compute `OtherPortal` |
| `Day20.OtherPortal` | src/bin/day20.rs:111-124 | a position off the grid is the indexing panic and nothing else is; a found position is another tile of the map, equal to the tile at `pos`, which is a portal |
| `Day20.SourceBorderOuter` | src/bin/day20.rs:70 | with the source's border a portal is outer exactly on rows 1 and 121 and on columns 1 and 127 |
| `Day20.Neighbours` | src/bin/day20.rs:17-55 | the four targets, down, up, right and left |
| `Day20.Visit` | src/bin/day20.rs:23-83 | for one target: a come-from or already visited target leaves the visited set alone, and any other is added to it; the queue only grows at the back, by at most one entry |
| `Day20.VisitAll` | src/bin/day20.rs:17-85 | the inner loop appends at most one entry per remaining target and keeps the queue it started with as a prefix |
| `Day20.Expand` | src/bin/day20.rs:17-85 | an iteration appends at most four entries, one per target |
| `Day20.VisitFollows` | src/bin/day20.rs:23-83 | handling a target appends only entries at most one step further than the popped entry, and a returned answer is the popped entry's step count |
| `Day20.VisitAllFollows` | src/bin/day20.rs:17-85 | the same for the whole inner loop |
| `Day20.ExtendsTrans` | src/bin/day20.rs:17-40 | appending in two rounds, each within one step of the popped entry, is one such append |
| `Day20.ExpandFollows` | src/bin/day20.rs:16-85 | the same for one iteration of the `while` loop |
| `Day20.MaxStepsBounds` | src/bin/day20.rs:16-49 | every queued step count is at most the largest one |
| `Day20.MaxStepsAtMost` | src/bin/day20.rs:16-49 | a bound on every queued step count bounds the largest |
| `Day20.MaxStepsOfNext` | src/bin/day20.rs:16-85 | an iteration raises the largest queued step count by at most one |
| `Day20.BfsBound` | src/bin/day20.rs:16-87 | each iteration adds at most one step, so an answer of the search is below the largest queued step count plus the iterations allowed |
| `Day20.Part1Spec` | src/bin/day20.rs:12-43 | an answer of part 1 is below the number of iterations the search was allowed |
| `Day20.Part2Spec` | src/bin/day20.rs:45-88 | the same for part 2 |
| `Day20.ExpandItem` | src/bin/day20.rs:17-85 | the inner `for` loop, with its early returns, computes `Expand` |
| `Day20.Search` | src/bin/day20.rs:13-49 | the `while` loop over the queue computes `Bfs` from the start entry |
| `Day20.Part1` | src/bin/day20.rs:12-43 | `part1` computes `Part1Spec` |
| `Day20.Part2` | src/bin/day20.rs:45-88 | `part2` computes `Part2Spec` |
| `Day20.ExtendPath` | src/bin/day20.rs:23-37 | a path followed by a legal hop is a path ending where the hop lands, costing the hop's cost more |
| `Day20.WitnessedPush` | src/bin/day20.rs:26-36 | queueing an entry that ends a path keeps the queue witnessed |
| `Day20.VisitSound` | src/bin/day20.rs:23-83 | handling one target only queues entries that end paths one hop longer, and stops with `Ok(n)` only next to a counting target |
| `Day20.VisitAllSound` | src/bin/day20.rs:17-85 | the same for the whole inner loop |
| `Day20.NeighboursAdjacent` | src/bin/day20.rs:17-55 | each target is next to the current cell, on its level |
| `Day20.BfsSound` | src/bin/day20.rs:16-86 | a result of the search is the cost of a path from the start to a cell next to a target that counts |
| `Day20.Part1Sound` | src/bin/day20.rs:12-43 | part 1's answer is the number of steps of a walk, through portals for free, to a cell next to the target |
| `Day20.Part2Sound` | src/bin/day20.rs:45-88 | part 2's answer is the cost of such a walk through the levels, ending next to the target on level 0 |
| `Day20.VisitKeepsQueue` | src/bin/day20.rs:23 | a visited or come-from target changes nothing; otherwise it is marked, and the queue only grows at the back |
| `Day20.VisitAllKeepsQueue` | src/bin/day20.rs:17-40 | the inner loop marks every target but the come-from cell and keeps the queue invariant |
| `Day20.QueueOkTail` | src/bin/day20.rs:16 | popping the front keeps the queue invariant |
| `Day20.ExpandKeepsQueue` | src/bin/day20.rs:16-85 | each iteration keeps the invariant that no cell is walked onto twice, never unmarks a cell, and only appends |
| `Day20.ExampleGridShape` | src/bin/day20.rs:90-109 | the example corridor has the tiles the example searches look at |
| `Day20.BfsOne` | src/bin/day20.rs:16 | a one-entry queue whose expansion continues goes on from the new queue |
| `Day20.BfsLast` | src/bin/day20.rs:16-66 | a one-entry queue whose expansion stops gives that result |
| `Day20.ExampleFirstExpand` | src/bin/day20.rs:17-60 | from the start only the empty tile to the right is queued, one step on |
| `Day20.ExampleSecondExpand` | src/bin/day20.rs:34-81 | next to the portal, its twin is queued with no extra step, one level deeper in part 2 |
| `Day20.ExampleThirdExpandFlat` | src/bin/day20.rs:31-33 | part 1 then finds the target next to the twin after one step |
| `Day20.ExampleThirdExpandRecursive` | src/bin/day20.rs:64-68 | part 2 reaches the target on level 1, where it does not count |
| `Day20.ExamplePart1Run` | src/bin/day20.rs:12-43 | part 1 on the example takes one step |
| `Day20.ExamplePart2Run` | src/bin/day20.rs:45-88 | part 2 on the example ends in the "target not found" panic |
| `Day20.ExamplePart2Rest` | src/bin/day20.rs:49-87 | the rest of part 2's search on the example finds no target on level 0 |
| `Day20.ExampleSearches` | src/bin/day20.rs:12-88 | on the example grid part 1 gives 1, and part 2 with the portal inner fails to find the target |
| `Day22.Reversed` | src/bin/day22.rs:48-50 | the new stack has the deck's length and card `i` of it is card `len - 1 - i` of the deck |
| `Day22.DealPrefix` | src/bin/day22.rs:59-63 | the table `new_array` has the deck's length while it is filled |
| `Day22.ApplySpec` | src/bin/day22.rs:46-67 | every technique keeps the deck's length |
| `Day22.ApplyComeFrom` | src/bin/day22.rs:69-72 | `come_from` inverts NewStack and Cut: the card at `p` afterwards is the card that was at `come_from(p)`, which is a position of the deck |
| `Day22.ComeFrom` | src/bin/day22.rs:69-72 | for NewStack, a position of the deck comes from the mirrored position `num_cards - 1 - pos`; for Cut, whenever the i128 sum is not negative, from the position of the deck `(n + pos) mod num_cards` |
| `Day22.CutWraps` | src/bin/day22.rs:72 | the truncating `(x + m) % m` of a non-negative sum is a position of the deck equal to `x mod m` |
| `Day22.RotateLeftAt` | src/bin/day22.rs:51-57 | `rotate_left(k)` puts card `k + p` at `p`, wrapping around |
| `Day22.CutSourceIndex` | src/bin/day22.rs:72 | `(n + pos + len) % len` is the position a rotation by `n` (or `len + n` for negative `n`) reads from |
| `Day22.ApplyPermutes` | src/bin/day22.rs:46-57 | NewStack and Cut only move cards: the deck keeps its multiset of cards |
| `Day22.ReversedPermutes` | src/bin/day22.rs:48-50 | reversal keeps the multiset of cards |
| `Day22.NewStackTwice` | src/bin/day22.rs:48-50 | dealing into a new stack twice gives back the deck |
| `Day22.DealPlacement` | src/bin/day22.rs:58-63 | card `i` ends at `i * n % len` unless a later card is dealt onto it; a position no card is dealt onto holds 0 |
| `Day22.Apply` | src/bin/day22.rs:46-67 | `apply` changes the array exactly as `ApplySpec` says; a panic leaves the deck unchanged |
| `Day22.Reverse` | src/bin/day22.rs:49 | `reverse` in place gives the reversed deck |
| `Day22.RotateLeftInPlace` | src/bin/day22.rs:53-55 | the rotation in place gives `RotateLeft` of the old deck |
| `Day22.Deal` | src/bin/day22.rs:58-65 | the deal succeeds iff `i * n` stays within usize for every card; the deck is then the filled table, and is otherwise unchanged |
| `Day22.DealTable` | src/bin/day22.rs:59-63 | the loop fills a fresh table equal to `DealPrefix`, or panics on a usize overflow |
| `Day22.CopyFrom` | src/bin/day22.rs:64 | `copy_from_slice` makes the deck equal to the table |
| `Day22.ParseTechnique` | src/bin/day22.rs:78-90 | a NewStack result came from the exact line, a Cut from a line starting with "cut", a DealIncrement from one starting with "deal with increment"; any other line panics |
| `Day22.ParseTechniqueLine` | src/bin/day22.rs:78-90 | parsing inverts writing a technique as the puzzle input does |
| `Day22.ParseCutLine` | src/bin/day22.rs:82-83 | `cut n` parses as `Cut(n)` for every i32 `n` |
| `Day22.ParseDealLine` | src/bin/day22.rs:84-85 | `deal with increment n` parses as `DealIncrement(n)` for every i32 `n` |
| `Day22.DealLastWord` | src/bin/day22.rs:85 | the last word of a deal line is its increment |
| `Day22.LastWordOf` | src/bin/day22.rs:83-85 | the last whitespace-separated word of `prefix + " " + word` is `word` |
| `Day22.ShuffleExamples` | src/bin/day22.rs:92-108 | test_new_stack and test_cut: the three decks the tests expect |
| `Day22.DealStep` | src/bin/day22.rs:61-63 | one card of the deal |
| `Day22.DealExample` | src/bin/day22.rs:110-115 | test_deal_increment: increment 3 gives `0 7 4 1 8 5 2 9 6 3` |
| `Day22.DealExampleRest` | src/bin/day22.rs:110-115 | the last six cards of that deal |
| `Day24.NoBugs` | src/bin/day24.rs:24 | the empty grid `0` has no bit set |
| `Day24.SetBit` | src/bin/day24.rs:26 | `s \| (1 << i)` sets bit `i` and keeps every other bit |
| `Day24.Value` | src/bin/day24.rs:28 | the grid read as an i32 lies in the i32 range |
| `Day24.UnsignedBound` | src/bin/day24.rs:28 | `k` bits read unsigned stay below `2^k` |
| `Day24.Cells` | src/bin/day24.rs:25 | the characters `parse` enumerates are the non-whitespace ones |
| `Day24.Parsed` | src/bin/day24.rs:23-29 | bit `i` of the parsed grid is set iff non-whitespace character `i` is `#` |
| `Day24.Parse` | src/bin/day24.rs:23-29 | `parse` succeeds iff no `#` comes at position 32 or later, where `1 << i` overflows; it then returns `Parsed` of the non-whitespace characters |
| `Day24.CellsStep` | src/bin/day24.rs:25 | the enumeration moves one non-whitespace character at a time |
| `Day24.ParsedSet` | src/bin/day24.rs:25-26 | OR-ing in bit `i` for a `#` extends the parsed prefix by one |
| `Day24.ParsedSkip` | src/bin/day24.rs:25 | any other character leaves the grid as it is |
| `Day24.StepSpec` | src/bin/day24.rs:115-127 | bit `i` of the next grid is set iff cell `i` is alive next: one neighbouring bug keeps or creates a bug, and two create one on an empty cell |
| `Day24.Step` | src/bin/day24.rs:115-127 | the loop of `step` builds `StepSpec`; no bit from 25 to 31 is set |
| `Day24.CountedNeighboursAreAdjacent` | src/bin/day24.rs:118-121 | the four guarded terms of `step` inspect exactly the cells that share an edge with `i` in the 5×5 grid |
| `Day24.CountIsBugsAmongNeighbours` | src/bin/day24.rs:118-121 | the count of `step` is the number of bugs among those neighbours |
| `Day24.BugsAmongFour` | src/bin/day24.rs:118-121 | the bugs among up to four distinct cells add up term by term |
| `Day24.FindCycle` | src/bin/day24.rs:129-137 | `find_cycle` returns the first grid that appears a second time; an empty result means none repeats within the budget |
| `Day24.SeenStep` | src/bin/day24.rs:130-135 | `seen` grows by the current grid each minute |
| `Day24.DistinctStep` | src/bin/day24.rs:132-135 | a grid not seen yet keeps `seen` free of repeats |
| `Day24.RepeatFound` | src/bin/day24.rs:132-133 | a grid already seen is the first repeat |
| `Day24.Toward` | src/bin/day24.rs:50-73 | leaving a cell in one direction meets cells of the 5×5 grid, possibly on the enclosing or the enclosed layer |
| `Day24.RecursiveNeighbours` | src/bin/day24.rs:78-105 | the geometric neighbours of a cell in the recursive grid are cells of the 5×5 grid |
| `Day24.BugsInConcat` | src/bin/day24.rs:78-105 | bug counts add over concatenated neighbour lists |
| `Day24.BugsInEdge` | src/bin/day24.rs:54-73 | the edge sums `lower_layer_*` count the bugs on one edge of the enclosed layer |
| `Day24.BugsInOne` | src/bin/day24.rs:50-76 | one neighbour holds a bug iff its bit is set on its layer |
| `Day24.UpBugs` | src/bin/day24.rs:80-103 | the bugs met going up from a cell |
| `Day24.DownBugs` | src/bin/day24.rs:80-103 | the bugs met going down from a cell |
| `Day24.LeftBugs` | src/bin/day24.rs:80-103 | the bugs met going left from a cell |
| `Day24.RightBugs` | src/bin/day24.rs:80-103 | the bugs met going right from a cell |
| `Day24.TableRow0` | src/bin/day24.rs:80-84 | the table's counts for row 0 are the four directional counts |
| `Day24.TableRow1` | src/bin/day24.rs:85-89 | the same for row 1 |
| `Day24.TableRow2` | src/bin/day24.rs:90-93 | the same for row 2, centre excluded |
| `Day24.TableRow3` | src/bin/day24.rs:94-98 | the same for row 3 |
| `Day24.TableRow4` | src/bin/day24.rs:99-103 | the same for row 4 |
| `Day24.TableIsRecursiveNeighbours` | src/bin/day24.rs:50-105 | the hand-written table of `step_part2` counts, for every cell except the centre, the bugs among that cell's neighbours in the recursive grid |
| `Day24.LayerSpec` | src/bin/day24.rs:74-110 | bit `i` of a new layer is set iff `i` is not the centre and the life rule holds for the table's count |
| `Day24.NextLayer` | src/bin/day24.rs:47-110 | the loop body for one layer builds `LayerSpec` |
| `Day24.MinOf` | src/bin/day24.rs:35 | the least layer number |
| `Day24.MaxOf` | src/bin/day24.rs:35 | the greatest layer number |
| `Day24.MinMax` | src/bin/day24.rs:35-45 | `minmax` finds no elements iff there are no layers; otherwise it gives the least and the greatest layer (equal for one layer) |
| `Day24.Extended` | src/bin/day24.rs:34-45 | the layers with an empty one added below the least and above the greatest |
| `Day24.StepPart2Spec` | src/bin/day24.rs:32-113 | an empty state panics; an i32 overflow of the layer numbers is an error; otherwise the result has the old layers plus the two new ones, and no centre bit is set |
| `Day24.NewLayers` | src/bin/day24.rs:46-111 | the loop over the extended layers gives each layer its `NewLayer` value, whatever order the map is visited in |
| `Day24.StepPart2` | src/bin/day24.rs:32-113 | `step_part2` computes `StepPart2Spec` |
| `Day24.StepPart2SpecOk` | src/bin/day24.rs:46-112 | when no overflow happens, the result is every extended layer's new state |
| `Day24.UnsignedOfNoBugs` | src/bin/day24.rs:24 | the empty grid is 0 |
| `Day24.SameBits` | src/bin/day24.rs:23-29 | grids with the same bits are equal |
| `Day24.UnsignedOfSetBit` | src/bin/day24.rs:26 | setting a clear bit `i` adds `2^i` |
| `Day24.ParseExample` | src/bin/day24.rs:139-149 | test_parse's picture has bugs at cells 15 and 21 |
| `Day24.ParseExampleValue` | src/bin/day24.rs:148 | that grid is the i32 2,129,920 |
| `Day24.Pow2Values` | src/bin/day24.rs:148 | `2^15` and `2^21` |
| `Day24.GridOf` | src/bin/day24.rs:23-29 | the grid with bugs at given cells |
| `Day24.ParsedPicture` | src/bin/day24.rs:23-29 | a 25-character picture parses to the grid of its `#` cells |
| `Day24.Picture1` | src/bin/day24.rs:154-160 | test_step's first picture |
| `Day24.Picture2` | src/bin/day24.rs:161-167 | test_step's second picture |
| `Day24.StepExampleRow0` | src/bin/day24.rs:152-169 | row 0 of that step |
| `Day24.StepExampleRow1` | src/bin/day24.rs:152-169 | row 1 of that step |
| `Day24.StepExampleRow2` | src/bin/day24.rs:152-169 | row 2 of that step |
| `Day24.StepExampleRow3` | src/bin/day24.rs:152-169 | row 3 of that step |
| `Day24.StepExampleRow4` | src/bin/day24.rs:152-169 | row 4 of that step |
| `Day24.StepExample` | src/bin/day24.rs:152-169 | test_step: one minute turns the first picture into the second |
| `Text.DigitValue` | src/bin/day16.rs:59 | `to_digit(10)` of a decimal digit is below 10 |
| `Text.DigitChar` | src/bin/day16.rs:63 | the character of a digit is a decimal digit of that value, the inverse of `to_digit` |
| `Text.TrimStart` | src/intcode.rs:34 | what `trim` drops at the front is whitespace, and what it keeps is a suffix that starts with none |
| `Text.TrimEnd` | src/intcode.rs:34 | what `trim` drops at the back is whitespace, and what it keeps is a prefix that ends with none |
| `Text.Split` | src/intcode.rs:34 | `split` always gives at least one piece |
| `Text.JoinSplit` | src/intcode.rs:34 | joining the pieces of `split` with the separator gives the text back |
| `Text.JoinCons` | src/intcode.rs:34 | joining a head and a non-empty rest puts the separator between them |
| `Text.JoinGrowHead` | src/intcode.rs:34 | a character in front of the first piece comes first in the join |
| `Text.SplitPiecesAvoidSeparator` | src/intcode.rs:34 | no piece cut at a one-character separator holds it |
| `Text.SplitJoin` | src/intcode.rs:34 | splitting undoes joining when no piece holds the separator |
| `Text.SplitStep` | src/bin/day14.rs:94 | a character that does not start a separator stays in the first piece |
| `Text.SplitAfterPrefix` | src/bin/day14.rs:94 | a prefix holding no first character of the separator stays at the head of the first piece |
| `Text.ConsTail` | src/bin/day14.rs:94 | a string is its first character followed by the rest |
| `Text.SplitAtSeparator` | src/bin/day14.rs:94 | a text that starts with the separator splits off an empty piece |
| `Text.SplitFirstAt` | src/bin/day14.rs:94 | cutting at the first separator gives the text before it, then the pieces of the rest |
| `Text.SplitWithoutSeparator` | src/bin/day14.rs:99 | a text without the separator is one piece |
| `Text.WordsAfterWhitespace` | src/bin/day14.rs:86 | leading whitespace does not change `split_whitespace` |
| `Text.WordsBeforeSpace` | src/bin/day14.rs:86 | nor does one trailing space |
| `Text.TrimUntrimmed` | src/bin/day14.rs:104 | `trim` keeps a text with no whitespace at either end |
| `Text.IndexOfWhitespace` | src/bin/day14.rs:86 | the end of the first word: no whitespace before it, whitespace at it |
| `Text.Words` | src/bin/day14.rs:86 | `split_whitespace` gives non-empty words free of whitespace, none exactly when the text is all whitespace |
| `Text.WordsOfWord` | src/bin/day22.rs:83 | a non-empty text without whitespace is one word |
| `Text.WordsSpaceConcat` | src/bin/day22.rs:83 | two texts joined by a space have the words of the first, then those of the second |
| `Text.WordsSkip` | src/bin/day14.rs:86 | a leading whitespace character does not change the words |
| `Text.WordsTake` | src/bin/day14.rs:86 | a text starting with a word has that word first |
| `Text.PrefixWord` | src/bin/day14.rs:86 | the first word of `a + " " + b` is the first word of `a` |
| `Text.IndexOfWhitespaceIsFirst` | src/bin/day14.rs:86 | the first whitespace character ends the first word |
| `Text.IntToStringHasNoWhitespace` | src/bin/day22.rs:83 | the decimal form of an integer holds no whitespace |
| `Text.IntToStringChars` | src/bin/day14.rs:89 | the decimal form of an integer is digits after an optional `-`, ending in a digit |
| `Text.Lines` | src/bin/day14.rs:104 | `lines` gives no pieces for an empty text and no piece holding a newline |
| `Text.LinesOfJoin` | src/bin/day14.rs:104 | `lines` undoes joining with newlines when no line holds one or ends in a carriage return |
| `Text.StripNoCarriageReturn` | src/bin/day14.rs:104 | `lines` leaves a line without a trailing carriage return as it is |
| `Text.JoinFirst` | src/bin/day14.rs:104 | a join starts with the first piece's first character |
| `Text.JoinLast` | src/bin/day14.rs:104 | a join ends with the last piece's last character |
| `Text.ParseInt` | src/intcode.rs:34 | a parsed integer comes from a non-empty text, and is at least 0 when the text is all digits |
| `Text.ParseI64` | src/intcode.rs:34 | `parse::<i64>()` succeeds only inside the `i64` range |
| `Text.ParseI32` | src/bin/day14.rs:89 | `parse::<i32>()` succeeds only inside the `i32` range |
| `Text.NatToString` | src/bin/day16.rs:63 | `to_string` of a non-negative number is decimal digits without leading zeros |
| `Text.IntToString` | src/bin/day16.rs:63 | `to_string` of an integer is never empty |
| `Text.DigitsValueOfNatToString` | src/bin/day16.rs:63 | the digits of a number have that number's value |
| `Text.ParseIntToString` | src/bin/day14.rs:89 | printing and parsing are inverse: an integer's decimal form parses back to it |
| `Text.ParseMinus` | src/bin/day22.rs:85 | `-` followed by digits parses to the negated value |
| `Text.ParseDigits` | src/bin/day22.rs:85 | digits parse to their value |
| `RustInt.Abs` | src/lib.rs:16 | `abs` is the value or its negation, and the value itself when it is not negative |
| `RustInt.Quot` | src/bin/day1.rs:21 | Rust's `/` rounds toward zero: the quotient of the magnitudes, negated when the signs differ |
| `RustInt.Rem` | src/lib.rs:7 | Rust's `%` is what `/` leaves: `a == b * (a / b) + r`, smaller than `b` in magnitude, with the sign of `a` |
| `RustInt.RemParts` | src/lib.rs:7 | the signs put back on the division of the magnitudes give `a` |
| `RustInt.QuotRemNonNegative` | src/intcode.rs:53-58 | on non-negative operands Rust's `/` and `%` are the Euclidean ones |
| `RustInt.DivModUnique` | src/bin/day22.rs:62 | `x == d * m + r` with `0 <= r < m` fixes the quotient and the remainder |
| `RustInt.MulGrows` | src/bin/day12.rs:81-83 | a positive multiple of a positive number is at least that number |
| `RustInt.AsUsize` | src/intcode.rs:46 | `as usize` keeps a non-negative `i64` and sends a negative one to the top half of the `usize` range |


## Left out

- `main` functions: file reads, `dbg!` and `println!` output are I/O. So is the day-2 noun/verb search in `main` of `src/bin/day2.rs`.
- The Intcode API that the driver binaries (days 5, 7, 9, 13, 15, 17, 19, 21, 23 and 25) call is not in `src/intcode.rs`. That API is queued input, `run_until_out`, `run_until_io`, ASCII helpers, relative mode and growable memory. The drivers themselves are puzzle glue around it, and are not part of this model.
- Concurrency (`par_bridge` in day 21) and the permutohedron crate (day 7) belong to those drivers, so they are not part of this model either.
- GIF output through the `image` crate (`src/bin/day8.rs:30-45`, `src/bin/day11.rs:42-64`) is I/O. The day-11 robot loop that drives the Intcode machine depends on the later API above.
- Floating point is not modelled: neither the `atan2` laser order of day 10 (`src/bin/day10.rs:10-35`) nor the `f64` progress estimate and brute-force main loop of day 14 (`src/bin/day14.rs:5-30`).
- Day 22 part 2 (`src/bin/day22.rs:15-36`) and the `DealIncrement` arm of `come_from` (`src/bin/day22.rs:73`) rely on the `modinverse` and `mod_exp` crates and on `i128`. `Day22.ApplyComeFrom` covers NewStack and Cut only.
- `Day22.ApplyPermutes`: states that the cards are only moved for NewStack and Cut. For `DealIncrement` it states where each card goes (`Day22.DealPlacement`), not that the deal is a permutation; it is one only when the increment is coprime with the deck size.
- Day 16 part 2's offset slicing and 10,000-fold repetition (`src/bin/day16.rs:20-22`) are plumbing for one concrete input. Its commented-out test has no assertion.
- The day-20 test reads a puzzle file (`src/bin/day20.rs:143-148`), and is not part of this model.
- The outer-portal border that `part2` hard-codes for one input (`src/bin/day20.rs:70`) is a parameter `Border`. `Day20.SourceBorder` holds the source's values, and `Day20.SourceBorderOuter` states that they make the source's test.
- Day 20 `part1` positions are represented as level-0 cells of the shared search.
- `Day20.Part1Sound`, `Day20.Part2Sound` and `Day20.BfsSound`: state that an answer is the cost of a legal walk to a cell next to a counting target. They do not state that it is the shortest, and do not state that "target not found" means no walk exists.
- `Day18.FindPossibleMoves`: states that every move is a held-key-free Key tile reached in exactly its step count, through passable tiles. It does not state that every reachable key is listed or that the counts are minimal. For the same reason the search test at `src/bin/day18.rs:294-313` is not reproduced.
- `find_all_keys` and `find_all_keys_with_4_robots` (`src/bin/day18.rs:143-243`), and `parse_map` and `find_start_pos` of day 18 with their test (`src/bin/day18.rs:280-292`), are not part of this model.
- Loops that need not terminate take a step budget, and the model says nothing about what lies beyond it. These are `IntCode.RunFor`, `Day2.RunSpec`, `Day24.FindCycle`, `Day12.GetPeriod`, `Day14.Run` and the day-20 searches. A run that uses up its budget reports that (`OutOfFuel` or `None`) instead of a result.
- The day-24 `find_cycle` test (`src/bin/day24.rs:171-181`) needs 86 generations, far more than the proofs unroll.
- The day-24 tests are stated on the test grids' non-whitespace characters, not on the indented literal text. `Day24.Cells` states which characters `parse` keeps.
- `Day10.GetDirections`: uses the reduced direction `Day10.GetDirection`, not the code as written (see Findings). The two agree whenever no offset to the station is `i32::MIN` (`Day10.DirectionsAgree`). That holds on every map `parse_map` gives (`Day10.ParsedDirectionsAgree`).
- `Day10.VisibleAsteroids`: is built on `Day10.GetDirections`, so it is the source's count under the same condition. From (0, 0) over [(0, 0), (1, 0), (`i32::MIN`, 0)] the source counts 1 asteroid and the model 2 (`Day10.VisibleAsWrittenDiffers`).
- `Day10.FindBestAsteroid`: is built on `Day10.VisibleAsteroids`, and agrees with the source on every parsed map for the same reason.
- `test_example1` of day 10 (`src/bin/day10.rs:98-111`) is not reproduced. It needs the distinct directions among ten asteroids from three stations. `Day10.DirectionExamples` covers the direction test.
- The second and third `find_collisions` cases of day 3 (`src/bin/day3.rs:144-151`) are long wires whose collisions the proofs do not enumerate. The first case is `Day3.CollisionExample`.
- `Day14.ParseReactionIndented`: the indented test text of `test_parse` (`src/bin/day14.rs:107-120`) is covered through this lemma and the round-trip lemmas, not as the literal string. `Day14.ExampleParses` works on the unindented text.
- Integer widths are modelled where a value can reach them: the Intcode words (`i64`), the `as usize` casts, gcd and lcm, day 10's `i32` offsets, day 16's iterator state, day 18's key shift, day 24's bit grid and day 8's `u64` product. The following counters are unbounded integers instead, because the puzzle values stay far inside their types:
  - day 12 positions and velocities;
  - day 3 step counts and distances;
  - day 16 phase sums;
  - day 6 orbit counts;
  - day 14 request counts and ORE totals;
  - day 20 step counts.
- `Day6.Part1` and `Day6.Part2` require every walk to the root to end. On a cyclic orbit map the source loops forever.
- Text: whitespace is ASCII whitespace. Rust's `char::is_whitespace` also accepts Unicode spaces, which the puzzle inputs do not contain.

## Findings

| source | as written | input that shows it | evidently intended | confidence | as-written member | corrected member |
|---|---|---|---|---|---|---|
| src/bin/day6.rs:35-52 | `part2` counts the steps from the objects YOU and SAN orbit up to their first common strict ancestor, so the object they orbit can never be the meeting point | `COM)A`, `A)YOU`, `A)SAN`: returns 2 | 0 transfers, since YOU and SAN already orbit the same object; in general the meeting point may be either orbited object itself | not executed | `Day6.SameParentAsWritten` (with `Day6.Part2Spec`) | `Day6.IntendedTransfers`, with `Day6.IntendedSameParent`, `Day6.SameParentIntended` and `Day6.IntendedAgreesAwayFromAncestors` |
| src/bin/day10.rs:41-45 | the gcd of the offsets is cast `as i32`; a gcd of 2^31 wraps to `i32::MIN`, and dividing by it flips the direction's sign | dst `(i32::MIN, 0)`, src `(0, 0)`: returns `(1, 0)` | `(-1, 0)`, the offset in lowest terms | not executed | `Day10.AsWrittenReverses` (with `Day10.GetDirectionAsWritten`), and `Day10.VisibleAsWrittenDiffers` for the count | `Day10.GetDirection`, with `Day10.DirectionIsReduced` |
