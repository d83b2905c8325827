# Advent of Code 2015, modelled in Dafny

This project models the Rust solutions to the 2015 Advent of Code puzzles
(days 1 to 3 and 5 to 25; day 4 is left out). Each day's `main.rs` becomes one
Dafny module (day 21 and day 22 become one module per game file). Santa's
floor walker, the light grids, the wire circuit, the reindeer race, the light
animation, the RPG shop and the wizard fight keep their in-place state as
classes with `modifies` frames. Their loops are methods proved against
specification functions. The parsers, searches and closed-form computations
become functions with lemmas about them. Each module also proves the test
vectors the source asserts, with three exceptions: day 10's twelve threes
(the code gives [12, 3] where the test expects [1, 2, 3]), day 11's two
`get_next_password` vectors (their answers are proved valid, not proved to
be the first), and day 19's "HOHOHO" search.

Shared helpers:

- `Wrappers` holds `Option`/`Result`, saturating subtraction and `collect` into an `Option`.
- `Arith` holds small facts about sums and multiplication.
- `Strings` models the parts of Rust's `str` API the solutions call: `lines`, `split`, `split_whitespace`, `find` and `parse::<usize>`/`parse::<isize>`. Each one is proved against its inverse: `Join` for `lines` and `split`, `Unwords` for `split_whitespace`, and `Decimal`/`SignedDecimal` for the number parsers.

Integers are unbounded. The model does not reproduce the fixed widths (`usize`, `u32`, `u64`) of the source, except where they matter: day 7's wires are `bv16`, and day 25's codes stay below the modulus.

## Model

| member | source | states |
|---|---|---|
| Wrappers.SaturatingSub | day-22/src/game/attack.rs:19-24 | `saturating_sub` never exceeds the minuend, is the exact difference when there is no underflow, and is 0 otherwise |
| Wrappers.CollectAllSound | day-16/src/main.rs:16-22 | a successful `collect` into `Option` holds one result per element, each that element's own |
| Wrappers.CollectAllFailing | day-16/src/main.rs:16-22 | one failing element makes the whole `collect` fail |
| Wrappers.CollectAllFailure | day-16/src/main.rs:16-22 | a failed `collect` has an element that failed |
| Strings.Split | day-2/src/main.rs:8 | `split(c)` yields at least one piece, no piece holds the separator, and joining the pieces gives the input back |
| Strings.SplitJoin | day-2/src/main.rs:8 | splitting joined pieces that are free of the separator gives the pieces back |
| Strings.Lines | day-2/src/main.rs:6 | `lines()` yields pieces without line breaks |
| Strings.RawLines | day-2/src/main.rs:6 | the pieces between line breaks, without the empty piece after a final line break, hold no line break |
| Strings.LinesStripRaw | day-2/src/main.rs:6 | there is one line per raw piece, each the piece itself or the piece without its one trailing carriage return |
| Strings.LinesJoinBack | day-2/src/main.rs:6 | only the empty text has no pieces; otherwise joining the pieces with line breaks gives the text back, up to one final line break |
| Strings.LinesOfJoined | day-2/src/main.rs:6 | lines without line breaks or a trailing carriage return, joined and ended with line breaks, read back as themselves |
| Strings.StripCarriageReturn | day-2/src/main.rs:6 | `lines()` drops at most one trailing carriage return and keeps only characters of the line |
| Strings.OneLine | day-2/src/main.rs:6 | a text without line breaks is its own single line |
| Strings.ParseUsize | day-17/src/main.rs:45 | a parsed `usize` fits in 64 bits |
| Strings.ParseUsizeDecimal | day-17/src/main.rs:45 | every `usize` survives printing and parsing |
| Strings.ParseUsizeRejects | day-17/src/main.rs:45 | the empty string and any string with a non-digit other than a leading '+' are rejected |
| Strings.ParseSigned | day-13/src/main.rs:93 | a parsed signed value lies within the type's range; it is negative only after a leading '-', and never positive after one |
| Strings.ParseSignedRejects | day-13/src/main.rs:93 | the empty string, a lone sign and any string with a non-digit other than one leading sign are rejected |
| Strings.ParseSignedDecimal | day-13/src/main.rs:93 | every in-range value, negative ones included, survives printing with an optional '-' and parsing |
| Strings.WordAt | day-9/src/main.rs:91 | the first word is the longest whitespace-free prefix |
| Strings.Words | day-9/src/main.rs:91 | `split_whitespace` yields non-empty, whitespace-free words |
| Strings.WordsUnwords | day-9/src/main.rs:91 | splitting space-joined words gives the words back |
| Strings.Find | day-6/src/main.rs:33 | `find(c)` gives the first index holding `c`, and None exactly when `c` is absent |
| Strings.FindAfter | day-6/src/main.rs:33 | in `a + [c] + b` with `c` absent from `a`, `find` gives `|a|` |
| Strings.FindSubstring | day-16/src/main.rs:17 | `find(pattern)` gives the first index where the pattern occurs, and None only when it occurs nowhere |
| Strings.FindSeparator | day-16/src/main.rs:17 | the first ": " in `a + ": " + b` is the one right after `a` when `a` has none |
| Strings.SplitOn | day-16/src/main.rs:19 | `split(pattern)` yields pieces (all but the last free of the pattern) that join back to the input |
| Strings.SplitOnJoin | day-16/src/main.rs:47 | splitting pieces joined with a two-character pattern gives the pieces back |
| Day1.Move | day-1/src/main.rs:21-26 | '(' goes up one floor, ')' down one, anything else stays |
| Day1.FirstArrivalIsFirst | day-1/src/main.rs:30-38 | the specification of `walk_until` reaches the target after exactly the returned number of characters, and no earlier; None means no prefix reaches it |
| Day1.Santa.constructor | day-1/src/main.rs:14-19 | Santa starts on floor 0 with no steps |
| Day1.Santa.SwitchFloor | day-1/src/main.rs:21-28 | the floor moves by the character's step and the step counter always grows by one |
| Day1.Santa.WalkUntil | day-1/src/main.rs:30-38 | the loop returns the step counter at the first arrival on the target floor, or None after the whole input; the final floor and steps are those of the walked prefix |
| Day1.Santa.FindBasement | day-1/src/main.rs:40-42 | `find_basement` is `walk_until` with target -1 |
| Day1.FirstArrivalUnique | day-1/src/main.rs:30-38 | any first arrival point determines the result of the walk |
| Day1.SantaFunctional | day-1/src/main.rs:45-57 | the functional answer lies between 1 and one past the input length |
| Day1.StepsAbove | day-1/src/main.rs:55-56 | the `take_while` count is at most the input length |
| Day1.FunctionalAgrees | day-1/src/main.rs:45-57 | the functional answer equals `find_basement`'s answer when the basement is reached, and is one past the input otherwise |
| Day1.ExampleDown | day-1/src/main.rs:73-81 | test vector ")" gives 1 for both solutions |
| Day1.ExampleFifth | day-1/src/main.rs:74-82 | test vector "()())" gives 5 |
| Day1.ExampleLater | day-1/src/main.rs:75-83 | test vector "()())(((()" gives 5 |
| Day1.ExampleNever | day-1/src/main.rs:76 | test vector "()()(((()" never reaches the basement |
| Day2.Insert | day-2/src/main.rs:11 | inserting into a sorted list keeps it sorted and adds exactly the one element |
| Day2.Sort | day-2/src/main.rs:11 | `sort` yields an ascending permutation of the dimensions |
| Day2.SortOfSorted | day-2/src/main.rs:11 | sorting sorted dimensions changes nothing |
| Day2.SortIdempotent | day-2/src/main.rs:11 | sorting twice is sorting once |
| Day2.SortThree | day-2/src/main.rs:11 | three sorted dimensions are the ascending arrangement of the box's sides |
| Day2.ParseBox | day-2/src/main.rs:7-13 | a line parses exactly when every 'x'-separated field is a `usize`, and then gives those numbers (the same multiset) in ascending order |
| Day2.ParseAll | day-2/src/main.rs:9-10 | parsing succeeds exactly when every field is a `usize`, and then keeps each field's value in order |
| Day2.Parse | day-2/src/main.rs:5-15 | parsing succeeds exactly when every line does, giving one box per line, each the line's own |
| Day2.ParseOneLine | day-2/src/main.rs:5-15 | an input of one line is one box |
| Day2.SortedSides | day-2/src/main.rs:20-23 | on sorted dimensions the first two give the smallest side and the smallest half-perimeter |
| Day2.SmallestSide | day-2/src/main.rs:17-33 | per box the paper is the surface plus the smallest side and the ribbon the smallest perimeter plus the volume, as the puzzle intends |
| Day2.TotalsAdd | day-2/src/main.rs:17-33 | both folds are sums: the boxes of two lists together need what each list needs |
| Day2.ParseExamples | day-2/src/main.rs:49-59 | the test inputs parse to one sorted box each |
| Day2.TotalExamples | day-2/src/main.rs:49-59 | 2x3x4 needs 58 feet of paper and 34 of ribbon; 1x1x10 needs 43 and 14 |
| Day3.FromChar | day-3/src/main.rs:17-25 | a character is a direction exactly when it is one of the four arrows |
| Day3.ToChar | day-3/src/main.rs:17-25 | each direction's arrow reads back as that direction |
| Day3.ParseDirections | day-3/src/main.rs:93-95 | `filter_map` keeps at most one direction per character |
| Day3.ParseArrows | day-3/src/main.rs:93-95 | parsing the arrows of directions gives the directions back |
| Day3.ParseIgnoresOthers | day-3/src/main.rs:93-95 | characters that are not arrows make no difference |
| Day3.SplitDirections | day-3/src/main.rs:97-102 | the partition holds the moves at even positions and those at odd positions, each in the original order |
| Day3.SplitInterleave | day-3/src/main.rs:97-102 | interleaving the two halves again gives the original directions |
| Day3.Move | day-3/src/main.rs:74-81 | one step changes the coordinates by exactly one in one axis |
| Day3.Walk | day-3/src/main.rs:69-71 | a walk reaches one house per direction |
| Day3.WalkStep | day-3/src/main.rs:69-71 | each house of the walk is one move from the one before it |
| Day3.Visit | day-3/src/main.rs:39-44 | one more present at a house adds that house to the map, increments its count from 0 or its old value, and changes no other house |
| Day3.DeliverCounts | day-3/src/main.rs:39-48 | after delivering, the visited houses are the old ones plus those on the way |
| Day3.DeliverSnoc | day-3/src/main.rs:69-71 | delivering one more house is one more visit |
| Day3.Town.constructor | day-3/src/main.rs:33-37 | a new town has no presents |
| Day3.Town.VisitHouse | day-3/src/main.rs:39-44 | the map gets one more present at the house, and the returned count is the house's new count, at least 1 |
| Day3.Santa.constructor | day-3/src/main.rs:57-63 | a new Santa stands at the origin and has left a present there |
| Day3.Santa.GoToNextHouse | day-3/src/main.rs:74-83 | Santa moves one step, leaves one present at the new house and returns that house's count |
| Day3.VisitTown | day-3/src/main.rs:65-72 | the loop leaves the town's presents as the delivery over the origin and the whole walk |
| Day3.HousesOfOneSanta | day-3/src/main.rs:104-110 | part one counts the distinct places of the walk, the origin included |
| Day3.HousesOfTwoSantas | day-3/src/main.rs:112-116 | part two counts the origin and the places of both walks |
| Day3.OneSantaExamples | day-3/src/main.rs:119-128 | ">" visits 2 houses and "^>v<" visits 4 |
| Day3.OneSantaZigZag | day-3/src/main.rs:130-131 | a Santa going up and down any positive number of times visits exactly 2 houses |
| Day3.OneSantaZigZagExample | day-3/src/main.rs:130-131 | "^v^v^v^v^v" visits 2 houses |
| Day3.ZigZagSplit | day-3/src/main.rs:97-102 | dealing out "^v" repeated gives Santa every up move and Robo-Santa every down move |
| Day3.UpAndDown | day-3/src/main.rs:112-116 | Santa going up n times and Robo-Santa going down n times cover exactly the column from -n to n |
| Day3.ZigZagTwoSantas | day-3/src/main.rs:112-116 | two Santas on "^v" repeated n times visit 2n+1 houses |
| Day3.TwoSantasZigZagExamples | day-3/src/main.rs:134-155 | two Santas on "^v" visit 3 houses and on "^v^v^v^v^v" 11 |
| Day3.SquareTwoSantas | day-3/src/main.rs:143-147 | two Santas on "^>v<" visit 3 houses |
| Day5.VowelCount | day-5/src/main.rs:16-21 | the vowel count never exceeds the length |
| Day5.VowelCountIsPositions | day-5/src/main.rs:16-21 | the `filter ... count` equals the number of positions holding a vowel |
| Day5.LetterPairsAt | day-5/src/main.rs:23-28 | `contains_letter_pairs` holds exactly when two adjacent characters are equal |
| Day5.NaughtyAt | day-5/src/main.rs:30-35 | `contains_naughty_strings` holds exactly when one of "ab", "cd", "pq", "xy" occurs |
| Day5.SpacedPairAt | day-5/src/main.rs:42-47 | `contains_letter_pair_with_space` holds exactly when two characters one apart are equal |
| Day5.DoublePairAt | day-5/src/main.rs:37-40 | `contains_double_pair` holds exactly when one pair of characters occurs twice without overlapping |
| Day5.NiceRule1Meaning | day-5/src/main.rs:49-52 | `is_nice_rule1` holds exactly when at least three positions hold vowels, two adjacent characters are equal, and no adjacent pair is forbidden |
| Day5.NiceRule2Meaning | day-5/src/main.rs:54-56 | `is_nice_rule2` holds exactly when a pair occurs twice without overlapping and a character repeats one later |
| Day5.CountNiceRule1 | day-5/src/main.rs:58-61 | the count of nice strings never exceeds the number of strings |
| Day5.CountNiceRule2 | day-5/src/main.rs:63-66 | the count of nice strings never exceeds the number of strings |
| Day5.CountsAdd | day-5/src/main.rs:58-66 | both counts are additive over concatenated lists |
| Day5.ThreeVowelsExamples | day-5/src/main.rs:94-102 | the test vectors of `contains_three_vowels` |
| Day5.LetterPairsExamples | day-5/src/main.rs:104-112 | the test vectors of `contains_letter_pairs` |
| Day5.NaughtyExamples | day-5/src/main.rs:114-121 | the test vectors of `contains_naughty_strings` |
| Day5.NiceRule1Examples | day-5/src/main.rs:123-130 | the test vectors of `is_nice_rule1` |
| Day5.DoublePairExamples | day-5/src/main.rs:132-137 | the test vectors of `contains_double_pair` |
| Day5.SpacedPairExamples | day-5/src/main.rs:139-147 | the test vectors of `contains_letter_pair_with_space` |
| Day5.NiceRule2Examples | day-5/src/main.rs:149-155 | the test vectors of `is_nice_rule2` |
| Day6.CoordinateRoundTrip | day-6/src/main.rs:32-38 | every coordinate pair survives printing as "x,y" and parsing |
| Day6.ParseFormat | day-6/src/main.rs:40-61 | every instruction survives printing and parsing: `parse` reads back the operation and both corners |
| Day6.OperationWordsRead | day-6/src/main.rs:42-52 | "turn on", "turn off" and "toggle" are read back as their operation |
| Day6.ParseExamples | day-6/src/main.rs:154-174 | the three parsing test lines give the expected instructions |
| Day6.IndexCoordinates | day-6/src/main.rs:72 | the cell `(y, x)` stored at `x + 1000 * y` is read back as row `y`, column `x` |
| Day6.Switch | day-6/src/main.rs:72-76 | "turn on" lights a light, "turn off" darkens it, "toggle" flips it |
| Day6.Dim | day-6/src/main.rs:102-108 | brightness goes up 1 or 2 or down 1 and never below 0 |
| Day6.Switched | day-6/src/main.rs:69-79 | an instruction keeps the grid's size |
| Day6.Dimmed | day-6/src/main.rs:99-111 | an instruction keeps the grid's size |
| Day6.SwitchedCells | day-6/src/main.rs:69-79 | lights outside the rectangle are untouched, and lights inside are switched by the operation |
| Day6.ToggleTwice | day-6/src/main.rs:69-79 | toggling the same rectangle twice restores the grid |
| Day6.SwitchTwice | day-6/src/main.rs:69-79 | turning a rectangle on (or off) twice is doing it once |
| Day6.DimmedAllNonNegative | day-6/src/main.rs:99-119 | brightness is never negative after any list of instructions |
| Day6.BinaryLights.constructor | day-6/src/main.rs:65-67 | a new grid has 1,000,000 lights, all off |
| Day6.BinaryLights.ApplyInstruction | day-6/src/main.rs:69-79 | the nested loops leave the grid switched by the instruction |
| Day6.BinaryLights.ApplyInstructions | day-6/src/main.rs:81-87 | the loop leaves the grid switched by each instruction in turn |
| Day6.DimmableLights.constructor | day-6/src/main.rs:95-97 | a new grid has 1,000,000 lights, all at brightness 0 |
| Day6.DimmableLights.ApplyInstruction | day-6/src/main.rs:99-111 | the nested loops leave the grid dimmed by the instruction |
| Day6.DimmableLights.ApplyInstructions | day-6/src/main.rs:113-119 | the loop leaves the grid dimmed by each instruction in turn |
| Day6.CountOn | day-6/src/main.rs:89-91 | the number of lit lights never exceeds the grid size |
| Day6.CountAppend | day-6/src/main.rs:89-91 | counting two parts of a grid adds their counts |
| Day6.CountUpdate | day-6/src/main.rs:89-91 | changing one light changes the count by what that light adds or removes |
| Day6.CountAllOn | day-6/src/main.rs:89-91 | a fully lit grid counts all its lights |
| Day6.SumAppend | day-6/src/main.rs:121-123 | summing two parts of a grid adds their sums |
| Day6.SumUpdate | day-6/src/main.rs:121-123 | changing one light changes the sum by the difference |
| Day6.SumAllOne | day-6/src/main.rs:121-123 | a grid at brightness 1 everywhere sums to its size |
| Day6.MiddleFourCells | day-6/src/main.rs:189-193 | the rectangle 499,499 through 500,500 holds exactly four cells |
| Day6.BinaryExample | day-6/src/main.rs:176-203 | the binary test: 1,000,000 lights on, then 999,000, then 998,996 |
| Day6.DimmableExample | day-6/src/main.rs:206-233 | the dimmable test: total brightness 1,000,000, then 1,002,000, then 1,001,996 |
| Day7.ParseU16 | day-7/src/main.rs:97 | `u16::from_str` accepts exactly the `usize` texts whose value fits in 16 bits |
| Day7.ParseInstruction | day-7/src/main.rs:135-141 | an instruction line fails to parse exactly when it holds no " -> " |
| Day7.ParseAtom | day-7/src/main.rs:97-101 | a wire name or a decimal literal parses back to itself |
| Day7.ParseWire | day-7/src/main.rs:97-101 | a wire name is not a number and parses as that wire |
| Day7.ParseLiteral | day-7/src/main.rs:97-98 | a literal's decimal text parses as that literal |
| Day7.ParseGate | day-7/src/main.rs:73-102 | every gate of the puzzle's form parses back to itself |
| Day7.ParseComplement | day-7/src/main.rs:94-96 | "NOT " followed by an operand parses back to the complement |
| Day7.ParseAndGate | day-7/src/main.rs:74-78 | an AND gate parses back to itself |
| Day7.ParseOrGate | day-7/src/main.rs:79-83 | an OR gate parses back to itself |
| Day7.ParseLShiftGate | day-7/src/main.rs:84-88 | an LSHIFT gate parses back to itself |
| Day7.ParseRShiftGate | day-7/src/main.rs:89-93 | an RSHIFT gate parses back to itself |
| Day7.ParseFormat | day-7/src/main.rs:135-141 | every instruction of the puzzle's form survives printing and parsing |
| Day7.ParseExample1 | day-7/src/main.rs:179-180 | "123 -> x" parses as literal 123 into x |
| Day7.ParseExample2 | day-7/src/main.rs:181-182 | "456 -> y" parses as literal 456 into y |
| Day7.ParseExample3 | day-7/src/main.rs:183-186 | "x AND y -> d" parses as an AND gate into d |
| Day7.ParseExample4 | day-7/src/main.rs:187-190 | "x OR y -> e" parses as an OR gate into e |
| Day7.ParseExample5 | day-7/src/main.rs:191-193 | "x LSHIFT 2 -> f" parses as a left shift into f |
| Day7.ParseExample6 | day-7/src/main.rs:194-196 | "y RSHIFT 2 -> g" parses as a right shift into g |
| Day7.ParseExample7 | day-7/src/main.rs:197-198 | "NOT x -> h" parses as a complement into h |
| Day7.ParseExample8 | day-7/src/main.rs:199-200 | "NOT y -> i" parses as a complement into i |
| Day7.ValueMonotone | day-7/src/main.rs:104-124 | once a wire's value settles, more unfolding does not change it |
| Day7.DenotesUnique | day-7/src/main.rs:104-124 | a wire has at most one value |
| Day7.ValueWithoutSelf | day-7/src/main.rs:52-61 | a wire that has a value gets it without looking through itself, which is why caching it as None while pending loses nothing |
| Day7.RegisterOutcome | day-7/src/main.rs:52-61 | `evaluate` answers a cached wire from the cache unchanged, answers an unknown wire with None, and always leaves the wire's answer cached |
| Day7.ExpressionOutcome | day-7/src/main.rs:104-124 | evaluating an expression only adds cache entries |
| Day7.RegisterSound | day-7/src/main.rs:52-61 | every value the CPU reports is the wire's value in the circuit, and a truthful cache stays truthful |
| Day7.ExpressionSound | day-7/src/main.rs:104-124 | every value an expression reports is its value in the circuit |
| Day7.RegisterComplete | day-7/src/main.rs:52-61 | with a truthful cache whose None entries are the pending wires, the CPU finds every value that avoids those wires |
| Day7.ExpressionComplete | day-7/src/main.rs:104-124 | an expression whose value avoids the pending wires is evaluated to that value |
| Day7.EvaluateIsValue | day-7/src/main.rs:52-61 | from a truthful cache without None entries, evaluation gives `Some(v)` exactly when the circuit gives the wire the value `v` |
| Day7.Inserted | day-7/src/main.rs:63-69 | after inserting the instructions the wires are the old ones plus every target |
| Day7.CPU.constructor | day-7/src/main.rs:33-38 | a new CPU has no wires and nothing cached |
| Day7.CPU.Insert | day-7/src/main.rs:40-42 | the instruction's expression now drives its wire and the cache is unchanged |
| Day7.CPU.InsertAll | day-7/src/main.rs:63-69 | the loop inserts the instructions in order, later ones replacing earlier ones |
| Day7.CPU.ClearCache | day-7/src/main.rs:44-46 | the cache is emptied and the wires are kept |
| Day7.CPU.SetCacheValue | day-7/src/main.rs:48-50 | the wire's cached answer is replaced and nothing else changes |
| Day7.CPU.Evaluate | day-7/src/main.rs:52-61 | the method computes exactly `RegisterOutcome` and leaves the wires unchanged |
| Day7.CPU.EvaluateExpression | day-7/src/main.rs:104-124 | the method computes exactly `ExpressionOutcome` and leaves the wires unchanged |
| Day7.ExecuteInserted | day-7/src/main.rs:203-213 | inserting the execution test's lines builds the test circuit |
| Day7.OperateExamples | day-7/src/main.rs:214-217 | the gates of the execution test give 72, 507, 492 and 114 on inputs 123 and 456 |
| Day7.ExecuteDenotes | day-7/src/main.rs:214-221 | the values the execution test expects are the wires' values |
| Day7.ExecuteExample | day-7/src/main.rs:203-222 | evaluating any test wire, from a fresh cache or a truthful one left by earlier evaluations, reports the expected value |
| Day7.LoopNeverSettles | day-7/src/main.rs:224-232 | the wire `x` of the loop test never settles |
| Day7.LoopExample | day-7/src/main.rs:224-232 | evaluating `a` in the loop test reports None |
| Day8.HexValue | day-8/src/main.rs:78-79 | a hex digit's value is below 16 |
| Day8.ScanNoString | day-8/src/main.rs:26-34 | outside a literal only an opening quote is accepted, and it opens the literal without output |
| Day8.ScanNormal | day-8/src/main.rs:36-48 | inside a literal every character is accepted; a quote closes and a backslash starts an escape, both without output; anything else stands for itself |
| Day8.ScanEscaped | day-8/src/main.rs:50-62 | after a backslash only `"`, `\` and `x` are accepted; the first two stand for themselves |
| Day8.ScanEscapedHex | day-8/src/main.rs:64-72 | the first character of a hex escape must be a hex digit, and is remembered |
| Day8.ScanEscapedHex1 | day-8/src/main.rs:74-83 | the second hex digit completes the escape, which stands for the character with code 16 * first + second |
| Day8.ScanFrom | day-8/src/main.rs:85-112 | a successful scan emits at most one character per input character |
| Day8.ParseString | day-8/src/main.rs:85-112 | the loop with its mutable state and error variable computes exactly the scan |
| Day8.EncodeChar | day-8/src/main.rs:124-129 | a backslash or quote gets a backslash in front, and any other character stands alone |
| Day8.EncodeString | day-8/src/main.rs:120-132 | the encoding is quoted at both ends |
| Day8.EncodeLength | day-8/src/main.rs:120-132 | the encoded literal is longer by two quotes and one backslash per escaped character |
| Day8.ParseEncoded | day-8/src/main.rs:85-132 | parsing an encoded string gives the string back |
| Day8.ScanEncodedBody | day-8/src/main.rs:85-132 | scanning an encoded body and its closing quote gives the body's string and leaves the scanner outside the literal |
| Day8.HexEscape | day-8/src/main.rs:74-83 | a hex escape stands for the character with code 16 * first + second |
| Day8.ParseEmpty | day-8/src/main.rs:161 | `""` parses to the empty string |
| Day8.ParsePlain | day-8/src/main.rs:162 | `"abc"` parses to abc |
| Day8.ParseEscapedQuote | day-8/src/main.rs:163 | an escaped quote parses to a quote |
| Day8.ParseEscapedBackslash | day-8/src/main.rs:164 | an escaped backslash parses to a backslash |
| Day8.ParseHexEscape | day-8/src/main.rs:165 | `\x27` parses to an apostrophe |
| Day8.ParseFailures | day-8/src/main.rs:167-170 | the four failing test inputs fail, each with its own error |
| Day8.UnterminatedAccepted | day-8/src/main.rs:108-111 | the final scanner state is not checked, so an unterminated literal parses |
| Day8.EncodeEmptyLiteral | day-8/src/main.rs:175 | encoding test vector 1 |
| Day8.EncodePlainLiteral | day-8/src/main.rs:176 | encoding test vector 2 |
| Day8.EncodeEscapedQuote | day-8/src/main.rs:177 | encoding test vector 3 |
| Day8.EncodeEscapedBackslash | day-8/src/main.rs:178 | encoding test vector 4 |
| Day8.EncodeHexEscape | day-8/src/main.rs:179 | encoding test vector 5 |
| Day8.EncodeBodyAppend | day-8/src/main.rs:124-129 | the `flat_map` encoding works piece by piece |
| Day9.Choose | day-9/src/main.rs:79-85 | `cmp::min` and `cmp::max` pick one of their arguments, the smaller or the larger |
| Day9.Best | day-9/src/main.rs:52-59 | the fold with `cmp` over a non-empty set of totals gives a member that is at least as good as every other |
| Day9.BestAdd | day-9/src/main.rs:52-59 | adding one total to the fold combines it with `cmp`, whatever the iteration order |
| Day9.OtherEnd | day-9/src/main.rs:36-46 | a connection is followed from either end, to the city at the other end; it is skipped when neither end is the city |
| Day9.OptionsBothWays | day-9/src/main.rs:36-47 | a connection is an option from both of its cities while the other end is not on the stack |
| Day9.FreeDecreases | day-9/src/main.rs:47 | following an option leads to a city off the stack, so the recursion ends |
| Day9.RouteAchieved | day-9/src/main.rs:28-63 | some walk from the city, going to unvisited neighbours until none is left, has the distance the search reports |
| Day9.RouteOptimal | day-9/src/main.rs:28-63 | no such walk is better than the reported distance under `cmp` |
| Day9.DeadEnd | day-9/src/main.rs:49-50 | a city without unvisited neighbours adds 0 |
| Day9.Stack.constructor | day-9/src/main.rs:66 | a new stack is empty |
| Day9.Stack.Push | day-9/src/main.rs:33 | `push` appends the city |
| Day9.Stack.Pop | day-9/src/main.rs:61 | `pop` drops the last city |
| Day9.Graph.constructor | day-9/src/main.rs:15-20 | a new graph has no nodes and no connections |
| Day9.Graph.AddConnection | day-9/src/main.rs:22-26 | the first distance recorded for an ordered pair is kept, later ones are ignored, and both cities become nodes |
| Day9.Graph.FindRouteInner | day-9/src/main.rs:28-63 | the recursive search returns the best route from the city and leaves the stack as it found it |
| Day9.Graph.FollowOptions | day-9/src/main.rs:49-60 | for a non-empty set of options, the fold returns the best of their totals and restores the stack |
| Day9.Graph.FindRoute | day-9/src/main.rs:65-77 | the best route over every starting node, or None for a graph without nodes |
| Day9.Graph.FindShortestRoute | day-9/src/main.rs:79-81 | `find_route` with `min` |
| Day9.Graph.FindLongestRoute | day-9/src/main.rs:83-85 | `find_route` with `max` |
| Day9.Graph.ParseConnections | day-9/src/main.rs:87-97 | every parsed line adds its connection in order; a malformed line stops the parse |
| Day9.ParseConnection | day-9/src/main.rs:91-94 | a line parses exactly when it has at least five words and the fifth is a `usize`; the names are the first and third words and the distance is the fifth word's value |
| Day9.ParseConnectionText | day-9/src/main.rs:91-94 | reading a written "A to B = d" line gives back the two places and the distance |
| Day9Example.TriangleRoute | day-9/src/main.rs:28-63 | in a triangle, the route from a corner is the better of the two ways round |
| Day9Example.TriangleBest | day-9/src/main.rs:65-77 | in a triangle, the best route is the best over the three corners |
| Day9Example.TestBest | day-9/src/main.rs:121-139 | in the test graph the shortest route is 605 and the longest 982 |
| Day9Example.RouteTest | day-9/src/main.rs:121-139 | the graph built by the test's three `add_connection` calls reports 605 and 982 |
| Day10.RunLength | day-10/src/main.rs:10 | the run at the front is non-empty, holds only the first digit, and stops at a different digit |
| Day10.RunsMaximal | day-10/src/main.rs:10 | `group_by` yields maximal runs: non-empty, neighbours with different digits, the first holding the first digit |
| Day10.RunsExpand | day-10/src/main.rs:10 | the runs spell out the digits they were read from |
| Day10.RunsUnique | day-10/src/main.rs:10 | any split into maximal runs that spells the digits is the one `group_by` yields |
| Day10.Say | day-10/src/main.rs:11-13 | each run becomes two entries |
| Day10.SayPairs | day-10/src/main.rs:11-13 | entry `2 i` is the length of run `i` cut to a `u8`, and entry `2 i + 1` its digit |
| Day10.NextNumberLength | day-10/src/main.rs:6-15 | the step writes two entries per run, so at least two for a non-empty input |
| Day10.NextOfRuns | day-10/src/main.rs:6-15 | any split into maximal runs determines the step's output |
| Day10.IterateAdd | day-10/src/main.rs:17-22 | `m` iterations followed by `n` more are `m + n` iterations |
| Day10.OneRun | day-10/src/main.rs:11-13 | a single run of `n` copies of `d` is said as `n` modulo 256 and `d` |
| Day10.TwelveThrees | day-10/src/main.rs:49-50 | twelve threes give [12, 3], one entry for the length |
| Day10.LongRun | day-10/src/main.rs:12 | a run longer than 255 has its length cut to a `u8` |
| Day10.Step1 | day-10/src/main.rs:43 | [1] becomes [1, 1] |
| Day10.Step2 | day-10/src/main.rs:44 | [1, 1] becomes [2, 1] |
| Day10.Step3 | day-10/src/main.rs:45 | [2, 1] becomes [1, 2, 1, 1] |
| Day10.Step4 | day-10/src/main.rs:46 | [1, 2, 1, 1] becomes [1, 1, 1, 2, 2, 1] |
| Day10.Step5 | day-10/src/main.rs:47 | [1, 1, 1, 2, 2, 1] becomes [3, 1, 2, 2, 1, 1] |
| Day10.IterateExamples | day-10/src/main.rs:53-61 | zero to five iterations from [1] give the test's numbers |
| Day11.Increment | day-11/src/main.rs:1-14 | the increment keeps the length; a character outside 'a'..'z' met before the carry stops is an error |
| Day11.NextString | day-11/src/main.rs:1-14 | the backwards loop computes exactly the increment |
| Day11.IncrementZs | day-11/src/main.rs:3-5 | trailing 'z's become 'a's and the carry goes on to what stands in front of them |
| Day11.IncrementValue | day-11/src/main.rs:1-14 | on letters the increment adds one to the base-26 value, modulo 26 to the power of the length, and never fails |
| Day11.ValueInjective | day-11/src/main.rs:1-14 | two letter strings of one length with one value are the same |
| Day11.AllZsWrap | day-11/src/main.rs:3-5 | "z...z" wraps round to "a...a" |
| Day11.StepsValue | day-11/src/main.rs:47-55 | after `k` increments a letter string's value is `k` more, modulo 26 to the power of its length |
| Day11.Cycle | day-11/src/main.rs:47-55 | after 26^n increments a letter string of length n is back where it started |
| Day11.Periodic | day-11/src/main.rs:47-55 | the increments repeat with period 26^n |
| Day11.HasStraight | day-11/src/main.rs:16-18 | a straight is found exactly when three consecutive bytes go up by one each |
| Day11.NoConfusingLetters | day-11/src/main.rs:20-27 | the check passes exactly when 'i', 'o' and 'l' are all absent |
| Day11.DoublePairMeans | day-11/src/main.rs:29-40 | the fold finds two pairs exactly when two non-overlapping pairs of equal letters exist |
| Day11.NextPassword | day-11/src/main.rs:47-55 | the result is the first valid password after the input, and None only when none of the next 26^n is valid |
| Day11.NoneAfter | day-11/src/main.rs:47-55 | once an increment fails, every later one fails |
| Day11.NeverValid | day-11/src/main.rs:47-55 | for a letter password, None means no increment at all is valid, so the source's loop never ends |
| Day11.IncrementExample1 | day-11/src/main.rs:69 | "abc" becomes "abd" |
| Day11.IncrementExample2 | day-11/src/main.rs:70 | "abcz" becomes "abda" |
| Day11.IncrementExample3 | day-11/src/main.rs:71 | "zz" becomes "aa" |
| Day11.StraightExamples | day-11/src/main.rs:74-82 | the straight test vectors |
| Day11.ConfusingExamples | day-11/src/main.rs:84-91 | the confusing-letter test vectors |
| Day11.DoublePairExamples | day-11/src/main.rs:93-98 | the double-pair test vectors |
| Day11.ValidExample1 | day-11/src/main.rs:102 | "abcdffaa" is valid |
| Day11.ValidExample2 | day-11/src/main.rs:103 | "ghjaabcc" is valid |
| Day11.InvalidExamples | day-11/src/main.rs:104-106 | "abbcegjk", "hijklmmn" and "acdfeffv" are invalid |
| Day12.U64AsIsize | day-12/src/main.rs:12 | `u64 as isize` keeps values below 2^63 and wraps larger ones to negative values |
| Day12.F64AsIsize | day-12/src/main.rs:13 | `f64 as isize` drops the fraction, rounding toward zero |
| Day12.ParseAndAddUp | day-12/src/main.rs:42-48 | a document that does not parse counts 0; otherwise part 1 adds up every number and part 2 every number outside "red" objects |
| Day12.Part1Leaves | day-12/src/main.rs:9-18 | part 1 adds up every number in the document; strings, booleans and null count nothing |
| Day12.Part2IsPruned | day-12/src/main.rs:20-40 | part 2 is part 1 of the document with every object holding a "red" value removed |
| Day12.RedFreeUnpruned | day-12/src/main.rs:26-33 | a document without "red" object values is not pruned |
| Day12.Part2RedFree | day-12/src/main.rs:9-40 | without "red" object values both parts agree |
| Day12.RedObject | day-12/src/main.rs:26-33 | an object with a "red" value counts nothing in part 2, whatever it holds |
| Day12.ArrayParts | day-12/src/main.rs:14-25 | an array counts the sum of what its items count |
| Day12.ObjectParts | day-12/src/main.rs:15-37 | an object counts the sum of its values, and in part 2 only when none of them is "red" |
| Day12.Example1 | day-12/src/main.rs:69-81 | [1,2,3] counts 6 in both parts |
| Day12.Example2 | day-12/src/main.rs:70 | {"a":2,"b":4} counts 6 |
| Day12.Example3 | day-12/src/main.rs:71 | [[[3]]] counts 3 |
| Day12.Example4 | day-12/src/main.rs:72 | {"a":{"b":4},"c":-1} counts 3 |
| Day12.Example5 | day-12/src/main.rs:73-74 | {"a":[-1,1]} and [-1,{"a":1}] count 0 |
| Day12.Example6 | day-12/src/main.rs:75-76 | [] and {} count 0 |
| Day12.Example7 | day-12/src/main.rs:82 | [1,{"c":"red","b":2},3] counts 4 in part 2 |
| Day12.Example8 | day-12/src/main.rs:83 | {"d":"red","e":[1,2,3,4],"f":5} counts 0 in part 2 |
| Day12.Example9 | day-12/src/main.rs:84 | a "red" inside an array is just a string: [1,"red",5] counts 6 in part 2 |
| Day13.Seat | day-13/src/main.rs:16-23 | the table index wraps round: the seat is below the number of guests |
| Day13.SeatNoWrap | day-13/src/main.rs:19-20 | for indices from `-len` on, the `usize` cast does not wrap and the seat is the index modulo the length |
| Day13.SeatLeft | day-13/src/main.rs:64 | index `i - 1` is the left neighbour, the last seat for the first |
| Day13.SeatRight | day-13/src/main.rs:65 | index `i + 1` is the right neighbour, the first seat for the last |
| Day13.Position | day-13/src/main.rs:63 | `position` finds the first seat holding the guest |
| Day13.Happinesses | day-13/src/main.rs:44 | one happiness per seated guest |
| Day13.PositionOfSeat | day-13/src/main.rs:63 | with every guest seated once, a guest's position is their seat |
| Day13.HappinessesAreScores | day-13/src/main.rs:62-68 | each guest's happiness is what they feel about their two neighbours, missing preferences counting 0 |
| Day13.TableIsSeatSum | day-13/src/main.rs:43-45 | the table's happiness is the sum over the seats of what each feels about its neighbours |
| Day13.RotateHappiness | day-13/src/main.rs:43-68 | a round table has no head: turning it changes nobody's happiness |
| Day13.Insertions | day-13/src/main.rs:75 | every way to put a guest into a seating |
| Day13.SeatingsSound | day-13/src/main.rs:75 | every permutation holds the same guests |
| Day13.SeatingsComplete | day-13/src/main.rs:75 | every order of the guests is among the permutations |
| Day13.MaxOf | day-13/src/main.rs:76 | `max` gives a member at least as large as every other |
| Day13.MaxHappinessIsBest | day-13/src/main.rs:71-77 | no seating of the guests is happier than the answer |
| Day13.MaxHappinessReached | day-13/src/main.rs:71-77 | some seating of the guests reaches the answer |
| Day13.MaxHappinessOrderFree | day-13/src/main.rs:71-77 | the order in which the guests arrive does not change the answer |
| Day13.ParseLine | day-13/src/main.rs:90-98 | a line parses exactly when it has at least eleven words and word 3 is an `isize` that can be negated for "lose"; the guest is word 0, the units are word 3's value, negated for "lose", and the neighbour is word 10 without its last character |
| Day13.ParseLineText | day-13/src/main.rs:90-98 | reading a preference line gives back what it says |
| Day13.Record | day-13/src/main.rs:100-102 | recording a line creates the guest if needed and sets that one preference, the latest line winning |
| Day13.Guests | day-13/src/main.rs:89-103 | the guests after the lines stay filed under their own names |
| Day13.ParsePersons | day-13/src/main.rs:86-106 | parsing fails exactly when a line does not parse; otherwise it gives every recorded guest once |
| Day13.ReadGuests | day-13/src/main.rs:89-103 | the loop records each line in turn and stops at the first line that does not parse |
| Day13.IntoValues | day-13/src/main.rs:105 | `into_iter ... collect` gives every guest of the map once, in some order |
| Day13.TwoGuests | day-13/src/main.rs:62-68 | at a two-guest table both neighbours are the same guest, so each preference counts twice |
| Day14.Distance | day-14/src/main.rs:36-45 | the closed formula fails exactly when the cycle time is zero, where the source divides by zero |
| Day14.RunningStep | day-14/src/main.rs:36-45 | one more second adds a second of flight exactly when the reindeer flies in it |
| Day14.RunningIsFlown | day-14/src/main.rs:36-45 | speed times running time is the distance flown second by second |
| Day14.DistanceIsFlown | day-14/src/main.rs:36-45 | the closed formula is the race run second by second |
| Day14.DistanceMonotone | day-14/src/main.rs:36-45 | distance never goes down as time goes on |
| Day14.DistanceEarly | day-14/src/main.rs:36-45 | until its stamina runs out a reindeer flies all the time |
| Day14.Resting | day-14/src/main.rs:36-45 | after the stamina runs out no distance is gained until the cycle ends |
| Day14.Parse | day-14/src/main.rs:27-34 | a line parses exactly when it has at least fourteen words and words 3, 6 and 13 are `usize`s; the name is word 0 and speed, stamina and cooldown are those words' values |
| Day14.ParseAll | day-14/src/main.rs:55-59 | parsing succeeds exactly when every line parses, giving one reindeer per line |
| Day14.ParseDescribe | day-14/src/main.rs:27-34 | reading the description of a reindeer gives the reindeer back, as in the parsing test |
| Day14.RaceExamplesEarly | day-14/src/main.rs:111-116 | Comet and Dancer after 1 and 10 seconds, and Dancer after 11 |
| Day14.RaceExamplesResting | day-14/src/main.rs:115-118 | Comet rests at 140 after 11 and 12 seconds; Dancer is at 176 after 12 |
| Day14.RaceExamplesLong | day-14/src/main.rs:120-121 | after 1000 seconds Comet is at 1120 and Dancer at 1056 |
| Day15.Terms | day-15/src/main.rs:63-65 | one term per ingredient |
| Day15.TotalAppend | day-15/src/main.rs:63-65 | the fold's total is the sum of the totals of any two parts of the recipe |
| Day15.ClampedSum | day-15/src/main.rs:59-66 | `get_sum` is the total when it is not negative and 0 otherwise |
| Day15.ScoreMeaning | day-15/src/main.rs:68-74 | the score is 0 exactly when some non-calorie property totals 0 or less, and otherwise the product of the four totals |
| Day15.CaloriesOf | day-15/src/main.rs:76-78 | the calories are the clamped calorie total |
| Day15.BestIsMaximum | day-15/src/main.rs:80-125 | the best candidate bounds every split of 100 teaspoons and is offered by some split |
| Day15.OptimalIsMaximum | day-15/src/main.rs:80-99 | the optimal score is the largest score of any split of 100 teaspoons, and some split scores it |
| Day15.LimitedIsMaximum | day-15/src/main.rs:101-125 | the limited score is the largest score among splits with exactly 500 calories, and it is 0 or scored by such a split |
| Day15.OptimalScore | day-15/src/main.rs:80-99 | the three nested loops compute the best score over all splits |
| Day15.OptimalFrostings | day-15/src/main.rs:86-95 | the innermost loop folds every amount of frosting into the running maximum |
| Day15.LimitedScore | day-15/src/main.rs:101-125 | the three nested loops compute the best score over the splits with 500 calories |
| Day15.LimitedFrostings | day-15/src/main.rs:107-121 | the innermost loop folds every amount of frosting into the running maximum |
| Day15.LimitedFrosting | day-15/src/main.rs:110-120 | a split's score counts only when it has exactly 500 calories |
| Day15.ScoreExample | day-15/src/main.rs:135-139 | 44 butterscotch and 56 cinnamon score 62842880 |
| Day15.CaloriesExample | day-15/src/main.rs:141-146 | 40 butterscotch and 60 cinnamon have 500 calories and score 57600000 |
| Day16.Collect | day-16/src/main.rs:20 | collecting pairs into a map keeps every name, each with the value of its last pair |
| Day16.ParseProperty | day-16/src/main.rs:46-50 | the parsed name holds no ": " |
| Day16.PropertyRoundTrip | day-16/src/main.rs:46-50 | a property written as "name: value" parses back to itself |
| Day16.ItemsParse | day-16/src/main.rs:19-20 | the ", "-separated items of plain properties parse back to the properties |
| Day16.ParseSueLine | day-16/src/main.rs:16-22 | parsing a written "Sue N: ..." line gives back the Sue with those properties |
| Day16.PropertyListRoundTrip | day-16/src/main.rs:63-65 | measured lines written as "name: value" parse to the map of those properties |
| Day16.PropertyListFails | day-16/src/main.rs:63-65 | the measured list fails to parse exactly when one of its lines does |
| Day16.EmptyListFails | day-16/src/main.rs:16-22 | a line with nothing after its ": " fails, where the source panics on the missing value |
| Day16.FindSue | day-16/src/main.rs:67-79 | the answer is the 1-based number of the first matching Sue, and None exactly when no Sue matches |
| Day16.NothingShared | day-16/src/main.rs:24-43 | a Sue who shares no property with the list matches in both parts |
| Day16.PlainPropertiesAgree | day-16/src/main.rs:24-43 | for a Sue who remembers none of cats, trees, pomeranians and goldfish, both parts agree |
| Day16.ForgetKeepsMatch | day-16/src/main.rs:24-43 | forgetting properties keeps a match |
| Day16.ParseExampleLine | day-16/src/main.rs:115 | the test's matching line parses to that Sue |
| Day16.Part1Examples | day-16/src/main.rs:109-133 | part 1 tests: one Sue matches, the other does not, and the second is found |
| Day16.Part2Example | day-16/src/main.rs:135-146 | part 2 test: more trees than measured is required, and the second Sue is found |
| Day17.Masks | day-17/src/main.rs:6-27 | the choices of containers, one flag per container |
| Day17.MasksComplete | day-17/src/main.rs:6-27 | every choice of containers is listed |
| Day17.MasksDistinct | day-17/src/main.rs:6-27 | no choice is listed twice |
| Day17.InnerCounts | day-17/src/main.rs:6-27 | for positive sizes, the recursion counts exactly the choices of at most `limit` containers that hold the eggnog |
| Day17.InnerMonotone | day-17/src/main.rs:6-27 | allowing one more container never loses a combination |
| Day17.InnerSaturates | day-17/src/main.rs:29-31 | a limit at or above the number of containers gives the full count |
| Day17.FirstPositive | day-17/src/main.rs:34-36 | `find` returns the first limit in range with a positive count, or None when there is none |
| Day17.MinimumAsWritten | day-17/src/main.rs:33-37 | as written, the minimum tries only the limits `0 .. len` |
| Day17.AllContainersMissed | day-17/src/main.rs:34 | a single container holding exactly the eggnog has one combination, yet the written minimum reports None |
| Day17.Minimum | day-17/src/main.rs:33-37 | with limits `0 ..= len`, the minimum is the count at the first limit with any combination |
| Day17.MinimumExists | day-17/src/main.rs:33-37 | the corrected minimum finds something exactly when some combination exists |
| Day17.MinimumCountsFewest | day-17/src/main.rs:33-37 | at the first positive limit, the count is the number of combinations with exactly that many containers |
| Day17.Examples | day-17/src/main.rs:63-75 | 20, 15, 10, 5, 5 litres hold 25 in 4 ways, and 3 ways with the fewest containers |
| Day18.Step | day-18/src/main.rs:34-44 | the next frame has one cell per light, each computed from the old frame only |
| Day18.RowWindow | day-18/src/main.rs:50 | clipping the columns with `saturating_sub` and `min` loses no neighbour |
| Day18.WindowIsNeighbours | day-18/src/main.rs:46-60 | the clipped loops count exactly the up to eight neighbours inside the grid |
| Day18.WithCorners | day-18/src/main.rs:70-75 | switching the corners on keeps the grid size |
| Day18.CornersOnly | day-18/src/main.rs:70-75 | exactly the four corners are switched on, and doing it twice is doing it once |
| Day18.CountOnIsSize | day-18/src/main.rs:91-100 | the fold counts the lit cells |
| Day18.CellIndex | day-18/src/main.rs:103-117 | cell (x, y) is stored at `x + 100 y` and is read back from there |
| Day18.Lights.constructor | day-18/src/main.rs:18-20 | a new grid has 10,000 lights, all off |
| Day18.Lights.Copy | day-18/src/main.rs:12 | `clone` copies every cell into a new array |
| Day18.Lights.Get | day-18/src/main.rs:103-110 | `Index` reads the light stored at `x + 100 y` |
| Day18.Lights.Set | day-18/src/main.rs:112-117 | `IndexMut` writes one light and leaves every other one as it was |
| Day18.Lights.NewLightStatus | day-18/src/main.rs:46-68 | a lit light stays lit with 2 or 3 lit neighbours, an unlit one lights up with exactly 3 |
| Day18.Lights.NextFrame | day-18/src/main.rs:34-44 | the loops build a new grid holding the next frame and leave this one unchanged |
| Day18.Lights.ActivateCorners | day-18/src/main.rs:70-75 | the four corners are on and nothing else changes |
| Day18.Lights.CountActive | day-18/src/main.rs:91-100 | the count is the number of lit cells |
| Day18.Animated | day-18/src/main.rs:126-147 | every animated frame keeps the grid size |
| Day18.AnimatedCorners | day-18/src/main.rs:130-138 | with the corners held on, they are on in every frame |
| Day18.Animate | day-18/src/main.rs:126-147 | the loop yields the grid after `n` frames, with the corners held on when asked, and leaves the initial grid unchanged |
| Day18.PaintRow | day-18/src/main.rs:26-28 | writing a line keeps the grid size |
| Day18.ParseLine | day-18/src/main.rs:26-28 | the inner loop writes the line into its row and fails exactly where an index leaves the array |
| Day18.Parse | day-18/src/main.rs:22-32 | parsing fails exactly where an index leaves the array, and otherwise yields a new grid with the lines written in |
| Day18.ParseRows | day-18/src/main.rs:23-29 | the loop over the lines writes each line into its row of a new grid, and stops with None at the first index past the array |
| Day18.PaintRowEffect | day-18/src/main.rs:26-28 | a line of at most 100 characters written into a row below 100 sets exactly that row's cells |
| Day18.PaintRowsMeaning | day-18/src/main.rs:22-32 | for at most 100 lines of at most 100 characters, cell (x, y) is on exactly when line y has '#' at column x |
| Day18.IndexingExample | day-18/src/main.rs:170-177 | after switching (50, 50) on it reads on, and (50, 51) still reads off |
| Day19.ApplyReplacement | day-19/src/main.rs:8-18 | the loop adds to the set one molecule per window equal to `from`, with `to` in its place |
| Day19.NoReplacements | day-19/src/main.rs:10 | a molecule shorter than `from` has no window and gains nothing |
| Day19.ReplaceUndo | day-19/src/main.rs:12-14 | the replaced molecule holds `to` where `from` was, and putting `from` back gives the molecule |
| Day19.AllReplacementsMember | day-19/src/main.rs:20-26 | a molecule is a result exactly when some rule makes it at some occurrence |
| Day19.ApplyAllReplacements | day-19/src/main.rs:20-26 | the loop gathers every rule's results in one set |
| Day19.UndoReplaces | day-19/src/main.rs:44-48 | undoing a rule gives a molecule that the rule turns back into the original |
| Day19.CountStepsSearch | day-19/src/main.rs:28-75 | the method computes the recursive search exactly |
| Day19.SearchCuts | day-19/src/main.rs:42-74 | the loop over the cuts, longest first, returns the first successful inner search |
| Day19.CandidatesStep | day-19/src/main.rs:42-74 | the longest cut is searched first, and shorter ones only when it fails |
| Day19.SearchCut | day-19/src/main.rs:44-71 | the loop over the rules for one cut returns the first successful inner search, one step more |
| Day19.CutStep | day-19/src/main.rs:44-71 | a rule whose `to` ends the cut is tried first, and the next rule only if it fails |
| Day19.CandidatesProduce | day-19/src/main.rs:42-48 | every molecule searched turns back into the current one by one rule |
| Day19.CountStepsSound | day-19/src/main.rs:28-75 | a reported count is the length of a real derivation from "e" |
| Day19.CountStepsZero | day-19/src/main.rs:34-40 | no steps are reported exactly for "e", unless the limit is already 0, which reports None |
| Day19.ReplacementExample | day-19/src/main.rs:121-132 | "H" => "HO" on "HOH" gives exactly "HOOH" and "HOHO" |
| Day19.AllReplacementsExample | day-19/src/main.rs:135-149 | the three rules on "HOH" give exactly "HOOH", "HOHO", "OHOH" and "HHHH" |
| Day19.AllReplacementsCount | day-19/src/main.rs:148 | those are four distinct molecules |
| Day19.Search_HOH | day-19/src/main.rs:159 | "HOH" is built in 3 steps |
| Day20.SigmaAtLeast | day-20/src/main.rs:44-54 | every house `h >= 1` gets at least `h` from its visitors, and at least `h + 1` when `h >= 2` (elf 1 and elf `h`) |
| Day20.AllVisitors | day-20/src/main.rs:48-54 | elves past house `h` add nothing to it, so stopping the sieve at any `div > h` gives the full divisor sum |
| Day20.VisitAll | day-20/src/main.rs:49-53 | the inner loop adds `e` to exactly the multiples of `e` below the end of the array and leaves every other house alone |
| Day20.DeliverPart1 | day-20/src/main.rs:45-54 | house 0 keeps 1 and every house `1 <= h < div` ends with the sum of the divisors of `h` |
| Day20.FiftyVisits | day-20/src/main.rs:66 | the first fifty multiples of `e` are exactly the houses it visits in part 2 |
| Day20.VisitFifty | day-20/src/main.rs:64-70 | the inner loop adds `e` to its first fifty multiples below the end of the array and leaves every other house alone |
| Day20.DeliverPart2 | day-20/src/main.rs:60-71 | house 0 keeps 0 and every house `1 <= h < div` ends with the sum of its divisors `e` with `h <= 50 e` |
| Day20.Position | day-20/src/main.rs:56 | the first index reaching the bound, or None exactly when no index does |
| Day20.FindHousePart1 | day-20/src/main.rs:44-57 | the result is the first house whose divisor sum reaches `minimum / 10`; it exists exactly when `minimum / 10` is 1 (house 0) or at least 3, and None stands for the panic |
| Day20.FindHousePart2 | day-20/src/main.rs:59-74 | the result is the first house whose part 2 sum reaches `minimum / 11`, and None (the panic) only when no house below `div` does |
| Day20.FindHousePart1Corrected | day-20/src/main.rs:36-38 | the first house that gets at least `minimum` presents, ten per elf, which always exists |
| Day20.SmallSigmas | day-20/src/main.rs:91-100 | the divisor sums of houses 1 to 9 are 1, 3, 4, 7, 6, 12, 8, 15, 13, i.e. a tenth of the expected presents |
| Day20.FindHouseExamples | day-20/src/main.rs:110-115 | 70, 100 and 130 presents give houses 4, 6 and 8 |
| Day20.FindHouseShortfall | day-20/src/main.rs:45 | 75 presents give house 4, which gets only 70, while house 6 is the first to get 75 |
| Day21Game.HealthAfterHit | day-21/src/game/player.rs:35-38 | a hit never raises health, leaves it unchanged when the attack does not exceed the defense, and otherwise lowers it by the excess or to 0 |
| Day21Game.PlayerTakeHit | day-21/src/game/player.rs:35-38 | a hit on the player changes only its health, which never rises |
| Day21Game.BossTakeHit | day-21/src/game/boss.rs:22-24 | the boss's hit lowers only its health, saturating at 0 |
| Day21Game.Exchange | day-21/src/game/fighter.rs:36-46 | a decided fight ends with the loser at 0 health and neither health above its start |
| Day21Game.StrikesNeededIsCeiling | day-21/src/game/fighter.rs:36-46 | the strikes needed are the rounded-up quotient of health by damage: the fewest whose total covers the health |
| Day21Game.ExchangeWinner | day-21/src/game/fighter.rs:36-46 | the player wins exactly when it hurts the boss and, if the boss hurts it at all, needs no more strikes than the boss, since it strikes first |
| Day21Game.FightUnknown | day-21/src/game/fighter.rs:31-34 | the fight is Unknown exactly when neither attack exceeds the other's defense |
| Day21Game.FightWinner | day-21/src/game/fighter.rs:27-47 | the closed form of the result for fighters with positive maximum health: Win exactly when the player hurts the boss and needs no more strikes than the boss (or takes no damage) |
| Day21Game.FightIgnoresLeftoverHealth | day-21/src/game/fighter.rs:28-29 | both healths are restored first, so what is left from an earlier fight does not change the result |
| Day21Game.Player.constructor | day-21/src/game/player.rs:11-17 | a new player starts at full health |
| Day21Game.Player.Default | day-21/src/game/player.rs:24-28 | the default player has 100 health and the default equipment |
| Day21Game.Player.SetEquipment | day-21/src/game/player.rs:19-21 | only the equipment changes |
| Day21Game.Player.TakeHit | day-21/src/game/player.rs:35-38 | the new state is the pure hit applied to the old state |
| Day21Game.Player.ReplenishHealth | day-21/src/game/player.rs:48-50 | health is set back to the maximum and nothing else changes |
| Day21Game.Boss.Default | day-21/src/game/boss.rs:10-15 | the default boss has 100 health, attack 8 and defense 2 |
| Day21Game.Boss.TakeHit | day-21/src/game/boss.rs:22-24 | the new state is the pure hit applied to the old state |
| Day21Game.Boss.ReplenishHealth | day-21/src/game/boss.rs:34-36 | health is set back to the maximum and nothing else changes |
| Day21Game.Fight | day-21/src/game/fighter.rs:27-47 | the loop on the live objects ends with the result and the healths of the pure fight |
| Day21.SlotMembers | day-21/src/main.rs:12-26 | an optional slot holds one of the shop's items or nothing |
| Day21.LoadoutsAreAllowed | day-21/src/main.rs:7-36 | the loadouts are exactly the equipments with a weapon, an optional armor and two different optional rings |
| Day21.NeverRingless | day-21/src/main.rs:27 | since two empty ring slots are equal, no loadout is without a ring and none wears one ring twice |
| Day21.GetAllEquipments | day-21/src/main.rs:7-36 | the nested loops push exactly the loadouts, in loop order |
| Day21.PushWithWeapon | day-21/src/main.rs:12-33 | one weapon round appends every armor choice with every ring pair |
| Day21.PushWithArmor | day-21/src/main.rs:17-32 | one armor round appends every left ring with every different right ring |
| Day21.PushWithLeftRing | day-21/src/main.rs:22-31 | one left-ring round appends each different right ring |
| Day21.Trials | day-21/src/main.rs:41-46 | each loadout is paired with its cost and the result of fighting the rested boss with it |
| Day21.CheapestWinIsMinimum | day-21/src/main.rs:39-53 | the fold is the least cost among winning trials, and None exactly when none wins |
| Day21.DearestLossIsMaximum | day-21/src/main.rs:57-71 | the fold is the greatest cost among losing trials, and None exactly when none loses; a stalemate counts as neither |
| Day21.MinAndWinAnswer | day-21/src/main.rs:38-54 | the answer is the least cost of an allowed loadout that beats the boss, or None |
| Day21.MaxAndLoseAnswer | day-21/src/main.rs:56-72 | the answer is the greatest cost of an allowed loadout that loses, or None |
| Day21.DefaultShopCostRange | day-22/src/game/shop.rs:10-18 | with the default shop every loadout costs between 28 and 356 gold |
| Day21.DefaultShopExtremes | day-22/src/game/shop.rs:10-18 | a dagger with the cheapest ring costs 28, and the great axe, plate mail and two dearest rings cost 356; both are loadouts of the default shop |
| Day21.TryLoadout | day-21/src/main.rs:42-46 | one equip-and-fight step reports the result that depends only on the loadout and the fixed stats |
| Day21.FindMinAndWin | day-21/src/main.rs:38-54 | the loop returns the cheapest-win fold over the trials of all loadouts |
| Day21.FindMaxAndLose | day-21/src/main.rs:56-72 | the loop returns the dearest-loss fold over the trials of all loadouts |
| Day22Attack.Damage | day-22/src/game/attack.rs:18-20 | the damage is at least 1 and at least the magic part; it is magic plus the physical excess over the defense, or `max(1, magic)` when the defense absorbs the physical part |
| Day22Attack.NewHealth | day-22/src/game/attack.rs:17-25 | the new health never exceeds the old, is strictly lower when the old was positive, is 0 exactly when the damage covers it, and otherwise is the old health less the damage |
| Day22Attack.MagicIgnoresDefense | day-22/src/game/attack.rs:18 | a purely magic attack deals the same damage whatever the defense |
| Day22Attack.DefenseOnlyReducesPhysical | day-22/src/game/attack.rs:19-20 | more defense never means more damage, and the damage never drops below the magic part or 1 |
| Day22Effects.StatsOfOwnStatOnly | day-22/src/game/effects.rs:20-133 | each effect kind reports only its own stats (drain: attack and healing; shield: defense; damaging: attack; healing: health; recharging: mana) and 0 for the rest |
| Day22Effects.TickFacts | day-22/src/game/effects.rs:21-32 | an activation keeps the kind, reports Active exactly when duration was left, then with one less and its own stats, and otherwise changes nothing |
| Day22Effects.ActiveExactlyDurationTimes | day-22/src/game/effects.rs:21-32 | an effect of duration d is Active on exactly its first d activations, with remaining durations d-1 down to 0, and Finished ever after |
| Day22Effects.FinishedStays | day-22/src/game/effects.rs:29-31 | a finished effect stays finished and unchanged |
| Day22Effects.Effect.constructor | day-22/src/game/effects.rs:10-18 | a new effect has the given kind and duration |
| Day22Effects.Effect.CauseEffect | day-22/src/game/effects.rs:21-32 | the object's new value and the reported state are one pure activation of its old value |
| Day22Spells.DefaultSpells | day-22/src/game/spells.rs:132-138 | the default list has five spells |
| Day22Spells.DefaultSpellsListEachOnce | day-22/src/game/spells.rs:132-138 | every spell is in the default list, and no spell twice |
| Day22Spells.CastFacts | day-22/src/game/spells.rs:25-129 | Magic Missile deals 4 and Drain deals 2 and heals 2 at once; Shield (+7 defense, 6 turns), Poison (3 damage, 6 turns) and Recharge (+101 mana, 5 turns) register an effect under their own name |
| Day22Spells.CanCastFacts | day-22/src/game/spells.rs:17-123 | a castable spell is affordable; Magic Missile (53) is the cheapest; with enough mana, a cast is refused exactly when the same time-based spell is still active |
| Day22Equipment.Worn | day-22/src/game/equipment.rs:18-23 | the worn items are the weapon first, then those of the optional slots that are filled |
| Day22Equipment.Cost | day-22/src/game/equipment.rs:39-43 | the cost is the sum over the worn items, at least the weapon's |
| Day22Equipment.AttackPower | day-22/src/game/equipment.rs:45-49 | the attack power is the sum over the worn items, at least the weapon's |
| Day22Equipment.Defense | day-22/src/game/equipment.rs:51-55 | the defense is the sum over the worn items, at least the weapon's |
| Day22Equipment.WornTotals | day-22/src/game/equipment.rs:39-55 | the sums over the worn items equal the slot-by-slot sums with absent slots counting 0 |
| Day22Equipment.ExtraItemNeverLowers | day-22/src/game/equipment.rs:39-55 | filling an empty armor, left-ring or right-ring slot adds exactly the new item's cost, attack and defense, so it never lowers any of them |
| Day22Equipment.DefaultEquipment | day-22/src/game/equipment.rs:58-62 | the default equipment is a dagger alone: cost 8, attack 4, defense 0 |
| Day22Boss.BossHitFacts | day-22/src/game/boss.rs:36-38 | a hit on a living boss costs it at least one point and never more than the damage formula says; only its health changes |
| Day22Boss.MagicHitIgnoresBossDefense | day-22/src/game/boss.rs:36-38 | the wizard's magic hits cost the boss exactly their magic power, or all it has left |
| Day22Boss.BossAttackDamage | day-22/src/game/boss.rs:40-42 | the boss always attacks, doing its attack power less the target's defense, but at least 1 |
| Day22Boss.Boss.Default | day-22/src/game/boss.rs:12-17 | the default boss has 58 health, attack 9 and defense 2 |
| Day22Boss.Boss.PrepareTurn | day-22/src/game/boss.rs:30-34 | preparing a turn changes nothing |
| Day22Boss.Boss.TakeHit | day-22/src/game/boss.rs:36-38 | the new state is the pure hit applied to the old one |
| Day22Boss.Boss.PrepareForFight | day-22/src/game/boss.rs:48-50 | the boss is back at full health |
| Day22SwordFighter.SwordAttack | day-22/src/game/swordfighter.rs:49-51 | the sword fighter always attacks, physically only, with its equipment's attack power |
| Day22SwordFighter.SwordTakeHit | day-22/src/game/swordfighter.rs:45-47 | a hit lowers only the health, by the shared damage formula against the equipment's defense |
| Day22SwordFighter.MoreDefenseLessHarm | day-22/src/game/swordfighter.rs:45-55 | better armor never lets a hit do more harm |
| Day22SwordFighter.SwordFighter.constructor | day-22/src/game/swordfighter.rs:13-19 | a new sword fighter starts at full health |
| Day22SwordFighter.SwordFighter.Default | day-22/src/game/swordfighter.rs:26-30 | the default sword fighter has 100 health and a dagger |
| Day22SwordFighter.SwordFighter.SetEquipment | day-22/src/game/swordfighter.rs:21-23 | only the equipment changes |
| Day22SwordFighter.SwordFighter.PrepareTurn | day-22/src/game/swordfighter.rs:43 | preparing a turn changes nothing |
| Day22SwordFighter.SwordFighter.TakeHit | day-22/src/game/swordfighter.rs:45-47 | the new state is the pure hit applied to the old one |
| Day22SwordFighter.SwordFighter.PrepareForFight | day-22/src/game/swordfighter.rs:57-59 | the fighter is back at full health |
| Day22Controllers.RecordedChoiceNeverSubstitutes | day-22/src/game/wizardcontrollers.rs:74-90 | the script plays exactly the scripted spell when it names one that can be cast, and otherwise gives up, always past its end |
| Day22Controllers.ChooseAccounting | day-22/src/game/wizardcontrollers.rs:44-51 | the wrappers never change the script's choice; each call moves the cursor and the round counter on by one and adds exactly the chosen spell's cost, which the caster can afford |
| Day22Controllers.ChooseRescripted | day-22/src/game/wizardcontrollers.rs:74-90 | the stack reads only the current script entry: a script that agrees there makes the same choice |
| Day22Controllers.RecordedController.constructor | day-22/src/game/wizardcontrollers.rs:65-70 | a new recorded controller starts at the first entry |
| Day22Controllers.RecordedController.ChooseSpell | day-22/src/game/wizardcontrollers.rs:74-90 | the cursor moves on by one and the result is the script's choice |
| Day22Controllers.RecordedController.Reset | day-22/src/game/wizardcontrollers.rs:92-94 | the cursor goes back to the start |
| Day22Controllers.ManaRecordingController.constructor | day-22/src/game/wizardcontrollers.rs:36-41 | a new recorder has used no mana |
| Day22Controllers.ManaRecordingController.ChooseSpell | day-22/src/game/wizardcontrollers.rs:45-51 | it returns the inner choice and adds its cost to the mana used |
| Day22Controllers.ManaRecordingController.Reset | day-22/src/game/wizardcontrollers.rs:53-56 | the mana used and the inner cursor go back to 0 |
| Day22Controllers.RoundCountingController.constructor | day-22/src/game/wizardcontrollers.rs:103-108 | a new counter has counted no rounds |
| Day22Controllers.RoundCountingController.ChooseSpell | day-22/src/game/wizardcontrollers.rs:112-115 | the whole stack takes one pure `Choose` step |
| Day22Controllers.RoundCountingController.Reset | day-22/src/game/wizardcontrollers.rs:117-120 | the whole stack goes back to its reset state |
| Day22Controllers.FromInstructions | day-22/src/fightoptimizing.rs:11-13 | a fresh stack over the script, at its start, with nothing used or counted |
| Day22Wizard.SumSeqPermutation | day-22/src/game/wizard.rs:90-100 | the stats gathered from the registry do not depend on the order in which the hash map is visited |
| Day22Wizard.AnyOrderGathersStanding | day-22/src/game/wizard.rs:90-100 | any visiting order of the registry gathers the same standing totals |
| Day22Wizard.SurvivorsFacts | day-22/src/game/wizard.rs:90-104 | an effect survives the activation pass exactly when it had at least two activations left, and then has one fewer and keeps its kind |
| Day22Wizard.PrepareTurnKeeps | day-22/src/game/wizard.rs:75-143 | a turn never changes the spells, the maximum health or the standard mana |
| Day22Wizard.OwnTurnControl | day-22/src/game/wizard.rs:107-127 | on its own turn the wizard asks the controller once, on the registry left after expiry, and gives up exactly when there is no answer |
| Day22Wizard.OwnTurnCounts | day-22/src/game/wizard.rs:107-127 | its own turn moves the script cursor and the round counter on by one and never lowers the mana recorded as used |
| Day22Wizard.OtherTurnControl | day-22/src/game/wizard.rs:107 | on the other side's turn the controller is not asked and the giving-up flag stays |
| Day22Wizard.PrepareTurnWithScript | day-22/src/game/wizard.rs:113 | a turn reads the script only at the current entry, so replacing the script by one that agrees there commutes with the turn |
| Day22Wizard.PrepareTurnHealth | day-22/src/game/wizard.rs:56-57 | a turn only heals the wizard, never past its maximum |
| Day22Wizard.PrepareTurnFacts | day-22/src/game/wizard.rs:75-143 | one turn keeps health within the maximum; attack and defense come only from this turn's activations and cast; on its own turn the chosen spell is paid from the mana the wizard had and recorded as used, and the wizard gives up exactly when nothing was chosen; on the other turn mana only regenerates and the controller is untouched |
| Day22Wizard.Wizard.constructor | day-22/src/game/wizard.rs:25-42 | a new wizard is at full health and mana with no effects, zero attack and defense, and not giving up |
| Day22Wizard.Wizard.ApplyStats | day-22/src/game/wizard.rs:56-61 | health grows by the regeneration capped at the maximum; mana, attack and defense grow by the stats |
| Day22Wizard.Wizard.TakeHit | day-22/src/game/wizard.rs:145-147 | the new state is the pure hit applied to the old one |
| Day22Wizard.Wizard.PrepareForFight | day-22/src/game/wizard.rs:165-170 | health and mana are restored, giving up is cleared and the controller is reset |
| Day22Wizard.Wizard.ActivateEffects | day-22/src/game/wizard.rs:90-100 | the loop activates every registered effect once, gathers the stats of the active ones and stages exactly the finished or expired ones for deletion |
| Day22Wizard.Wizard.ActivateOne | day-22/src/game/wizard.rs:91-99 | one activation changes only the named effect, by one tick |
| Day22Wizard.Wizard.StartTurn | day-22/src/game/wizard.rs:84-104 | attack and defense restart from 0, every effect is activated, the expired ones are removed and the gathered stats sum to the standing totals |
| Day22Wizard.Wizard.ExpiredRemoved | day-22/src/game/wizard.rs:102-104 | removing the staged names leaves exactly the surviving effects |
| Day22Wizard.Wizard.CastChosenSpell | day-22/src/game/wizard.rs:107-138 | the spell chosen is paid for and registered or returned as this turn's immediate stats |
| Day22Wizard.Wizard.PayForChoice | day-22/src/game/wizard.rs:108-127 | the controller is asked, the chosen spell's cost is deducted, or the wizard gives up when nothing is chosen |
| Day22Wizard.Wizard.RegisterSpell | day-22/src/game/wizard.rs:129-137 | a time-based spell's effect is registered under its name, replacing any there; a one-shot spell's stats are returned |
| Day22Wizard.Wizard.ApplyAll | day-22/src/game/wizard.rs:140-142 | applying every gathered stat in order gives the pure application of their totals |
| Day22Wizard.Wizard.PrepareTurn | day-22/src/game/wizard.rs:75-143 | the live wizard ends in the state the pure turn describes |
| Day22Fight.RoundProgress | day-22/src/game/fighter.rs:40-123 | a round that goes on consumed exactly one script entry, which existed |
| Day22Fight.RoundAdvances | day-22/src/game/fighter.rs:40-123 | a round never changes the script or the spells, moves the cursor in step with the round counter and never lowers the mana used |
| Day22Fight.FightAdvances | day-22/src/game/fighter.rs:36-124 | the whole fight advances in the same sense |
| Day22Fight.RoundGivesUp | day-22/src/game/fighter.rs:70-75 | a round with the script used up is lost, with no mana spent |
| Day22Fight.ExhaustedScriptLoses | day-22/src/game/fighter.rs:40-123 | a fight whose script is used up is lost in that round and costs no mana |
| Day22Fight.FightEndsWithLoser | day-22/src/game/fighter.rs:40-123 | a fight started with both alive ends with a dead or surrendering loser and a living winner |
| Day22Fight.RoundWithScript | day-22/src/game/fighter.rs:40-123 | a round reads the script only at the cursor, so a script that agrees there plays the same round |
| Day22Fight.FightPrefix | day-22/src/game/fighter.rs:40-123 | replaying with a longer script gives the same fight while the shorter script lasts; past it the shorter one lost and the longer spends at least as much |
| Day22Fight.HardModeCostsOne | day-22/src/game/fighter.rs:46-55 | in hard mode each round first costs the wizard exactly one point of health, and is lost when that kills it |
| Day22Fight.HardModeTurn | day-22/src/game/fighter.rs:46-55 | the live hard-mode step ends as the pure one |
| Day22Fight.BothPrepare | day-22/src/game/fighter.rs:57-58 | both fighters prepare as the pure turn says; the boss's preparation does nothing |
| Day22Fight.WizardStrike | day-22/src/game/fighter.rs:70-86 | the live strike ends as the pure one |
| Day22Fight.BossStrike | day-22/src/game/fighter.rs:96-122 | the live strike ends as the pure one |
| Day22Fight.WizardTurn | day-22/src/game/fighter.rs:57-86 | the live half-turn ends as the pure one |
| Day22Fight.BossTurn | day-22/src/game/fighter.rs:93-122 | the live half-turn ends as the pure one |
| Day22Fight.Turns | day-22/src/game/fighter.rs:57-122 | the live round body ends as the pure one |
| Day22Fight.Round | day-22/src/game/fighter.rs:40-123 | the live round ends as the pure one |
| Day22Fight.Fight | day-22/src/game/fighter.rs:36-124 | the loop on the live objects returns the pure fight's result and leaves the fighters in its final state |
| Day22Search.ClassifyFacts | day-22/src/fightoptimizing.rs:91-101 | the classification is Win exactly when the fight was won, and carries the mana used |
| Day22Search.SimulationCounts | day-22/src/fightoptimizing.rs:19-21 | at the end of a simulation the round counter equals the cursor, so finished means the fight never asked past the script |
| Day22Search.EmptyScriptCostsNothing | day-22/src/fightoptimizing.rs:82-102 | the empty script spends nothing and does not win |
| Day22Search.PrefixMana | day-22/src/fightoptimizing.rs:42-53 | a sub-path never spends less mana than its parent |
| Day22Search.PrefixLoss | day-22/src/fightoptimizing.rs:94-95 | a script that loses without running out loses with anything appended |
| Day22Search.PrefixWin | day-22/src/fightoptimizing.rs:92 | a winning script stays winning, at the same cost, with anything appended |
| Day22Search.PrefixExpand | day-22/src/fightoptimizing.rs:96-97 | a winning extension of a script still in progress continues it with a valid spell index |
| Day22Search.ComparePathsReversed | day-22/src/fightoptimizing.rs:56-72 | paths compare by mana used, reversed, so the heap's greatest path is the cheapest |
| Day22Search.GreatestPath | day-22/src/fightoptimizing.rs:111 | the position popped holds a greatest path under that order, i.e. one with the least mana used |
| Day22Search.FreshWizardSimulates | day-22/src/fightoptimizing.rs:84-88 | a fresh wizard's fight over any stack with the script is the script's simulation |
| Day22Search.SimulateFight | day-22/src/fightoptimizing.rs:82-102 | the method's result and mana are the classification of the script's fight |
| Day22Search.CreateController | day-22/src/fightoptimizing.rs:38-40 | a fresh stack over the path's script |
| Day22Search.CreateSubPaths | day-22/src/fightoptimizing.rs:42-53 | one child per spell index, each the parent's script plus that index and priced by its own simulation |
| Day22Search.CheapestBelowCovered | day-22/src/fightoptimizing.rs:111 | the cheapest path in the heap costs no more than any script it starts |
| Day22Search.InitialHeap | day-22/src/fightoptimizing.rs:106-108 | the search starts with the empty path, which starts every script |
| Day22Search.PopWon | day-22/src/fightoptimizing.rs:115-117 | the cheapest path, once it wins, is a cheapest winning script |
| Day22Search.PopLost | day-22/src/fightoptimizing.rs:118-120 | dropping a lost path keeps the heap invariant |
| Day22Search.PopInProgress | day-22/src/fightoptimizing.rs:121-124 | replacing a path in progress by its sub-paths keeps the heap invariant |
| Day22Search.EmptyHeap | day-22/src/fightoptimizing.rs:128 | an empty heap means that no script wins |
| Day22Search.FindOptimizedFight | day-22/src/fightoptimizing.rs:104-129 | a returned script wins and no winning script costs less; None, unless the fuel ran out, means that no script wins |
| Day24.TotalWeight | day-24/src/main.rs:1-3 | the left fold from 0 is the sum of the weights |
| Day24.FoldIsProduct | day-24/src/main.rs:5-7 | folding from any accumulator multiplies it by the product of the weights |
| Day24.QuantumEntanglement | day-24/src/main.rs:5-7 | the fold from 1 is the product of the weights, 1 for the empty group |
| Day24.ProductAppend | day-24/src/main.rs:5-7 | the entanglement of two groups joined is the product of their entanglements |
| Day24.GroupsOfNothing | day-24/src/main.rs:31-33 | a weight of 0 is met by the empty group alone |
| Day24.GroupsSound | day-24/src/main.rs:9-35 | every group returned is an order-preserving pick of the packages weighing exactly the target, with at most `max_size` packages |
| Day24.GroupsComplete | day-24/src/main.rs:9-35 | when every package weighs something, every such pick is returned |
| Day24.MinEntanglement | day-24/src/main.rs:44-46 | the minimum entanglement is that of some group and no more than any group's |
| Day24.FindMinQuantumEntanglement | day-24/src/main.rs:37-51 | None exactly when no group size admits a group of the per-group weight; otherwise the least entanglement among the groups of the first size that admits one |
| Day24.FewestPackagesFirst | day-24/src/main.rs:37-51 | with positive weights, the size found is the fewest packages any pick of that weight has, and the answer is the least entanglement among the picks of that size |
| Day25.TriangleFormula | day-25/src/main.rs:5 | `d (d - 1)` is always twice the triangle number, so the halving is exact |
| Day25.IndexFromCoordinate | day-25/src/main.rs:3-6 | the index is the cells on the diagonals before plus the column; None stands for the unsigned underflow, exactly when `row + column <= 1` |
| Day25.IndexOfNext | day-25/src/main.rs:3-6 | moving on to the next cell in writing order raises the index by exactly one |
| Day25.PreviousThenNext | day-25/src/main.rs:3-6 | stepping back and then on returns to the cell, and the index drops by one |
| Day25.WalkIndex | day-25/src/main.rs:3-6 | the n-th cell of the writing order has index n |
| Day25.IndexWalk | day-25/src/main.rs:3-6 | every cell with positive coordinates is the cell reached at its own index, so the index is a bijection onto 1, 2, 3, ... |
| Day25.IndexInjective | day-25/src/main.rs:3-6 | two cells with the same index are the same cell |
| Day25.NextCode | day-25/src/main.rs:13 | a generator step stays below the modulus 33554393 |
| Day25.GetCode | day-25/src/main.rs:8-17 | the loop applies the generator `index - 1` times from the start value |
| Day25.FirstCode | day-25/src/main.rs:41 | cell (1, 1) holds the start value |
| Day25.CodeOfNext | day-25/src/main.rs:8-17 | the next cell in writing order holds one generator step on from this one |
| Day25.IndexExamples | day-25/src/main.rs:24-37 | the first eleven cells of the diagonals have indices 1 to 11 |
| Day25.CodeChain | day-25/src/main.rs:39-50 | the first steps of the generator from 20151125 give the codes of the test |
| Day25.GetCodeExamples | day-25/src/main.rs:39-50 | the codes in the top-left three-by-three corner are those of the test |

## Left out

- Day 4 only calls the `md5` crate's `compute`; day-4/src/main.rs is not part of this model.
- Input and output are left out in every day: `read_file`, `main`, `println!`, command-line arguments and file paths. The models take the parsed input as a parameter. This includes day 8's `parse_strings`/`encode_strings` totals, day 13's extra "Me" guest, day 14's leaderboard, day 5's table output and day 18's PNG output (`write_to_image`, `mutate_lights`).
- Day 22's `play` printing is left out. The `hard` feature flag becomes a `bool` parameter of the fight and the search.
- Day 22's `StdInController` blocks on standard input, so it is not modelled. day-22/src/main.rs is only the entry point.
- Day 22's wizard holds its controller in a `RefCell`. The model makes it an ordinary owned field.
- Trait objects (`Box<Effect>`, `Box<Spell>`, the generic `Fighter`, the controller stack) become closed datatypes and concrete classes. They cover only the instances the program builds: the wizard fights the boss through a recorded controller wrapped by the mana and round counters.
- Day 22's `SwordFighter` is modelled on its own. The program never puts it in a fight.
- The item catalog (day-21/src/game/items.rs) and `Shop::default()` (day-22/src/game/shop.rs) are constants of `Day22Equipment`. The search of day 21 takes the shop as a parameter, and the lemmas about `DefaultShop` instantiate it. Both days use the equipment of day-22/src/game/equipment.rs.
- Day 20's `calculate_presents_part1/2` and the `_slow` finders use an `f32` square root, so they are not modelled. The divisor sums `Sigma` and `LazySigma` state what they compute.
- Day 12's JSON parser (serde) is left out. The parsed document is a parameter, and a failed parse gives 0.
- Day12.F64AsIsize: the `f64` numbers of day 12 become `real`. This loses NaN and the infinities, and the saturation of `as isize` for values outside its range.
- Day 13's `find_max_happiness` uses the permutohedron generator. The model is a maximum over all orders of the guests.
- Fixed integer widths are not modelled, except day 7's `u16` wires (`bv16`) and day 10's `u8` run lengths. `usize`/`u64` overflow cannot happen in the model. For example, day 25 starts the generator from an unbounded value, where the source's `value * 252533` could overflow for a start above about 7 * 10^13.
- Day6.BinaryLights.ApplyInstruction: requires both corners below 1000. The source only panics past the end of its million lights, and a column of 1000 or more would spill into the next row.
- Day6.DimmableLights.ApplyInstruction: requires both corners below 1000, for the same reason.
- Day10.TwelveThrees: the test at day-10/src/main.rs:49-50 expects [1, 2, 3] from twelve threes. The code gives [12, 3], and the model follows the code.
- Day11.NextPassword: gives up with None after 26^n increments, where the source loops forever. The test vectors of `get_next_password` (day-11/src/main.rs:110-113) are not proved; only their answers are proved valid.
- Day2.PaperFor: requires at least three dimensions. The source indexes the sorted dimensions and panics on a line such as "2x3", which `Day2.Parse` accepts.
- Day2.RibbonFor: requires at least three dimensions, for the same reason.
- Day19.ApplyReplacement: requires a non-empty `from`. The source's `windows(0)` panics.
- Strings.Words: treats only the ASCII whitespace characters as separators. Rust's `split_whitespace` also splits on the other Unicode White_Space characters, such as U+00A0 and U+2003.
- Day 11 and day 19 index the bytes of their strings (`as_bytes()`). The model indexes characters, which is the same only for ASCII text, as the puzzle inputs are.
- Day17.InnerCounts: covers containers of positive size only. With a container of size 0 the recursion stops counting once nothing is left to fill.
- Day17.MinimumCountsFewest: covers containers of positive size only, for the same reason.
- Day19.CountStepsSearch: runs the search with a `fuel` bound, because the source's recursion has no termination argument. With too little fuel, the model answers None where the source might still find a count. The "HOHOHO" test (day-19/src/main.rs:160) is not proved.
- Day 19's `parse_replacements`/`parse_molecule` are not modelled. The rules are a parameter. The sort comparator subtracts `usize` lengths and would panic on a rule that shrinks.
- Day22Search.FindOptimizedFight: runs the heap loop with a `fuel` bound and reports when it runs out. The source loops until the heap is empty.
- Day24.GroupsComplete: covers positive package weights only. The recursion stops once the weight is reached, so it never adds a later package of weight 0 to a group.
- Day24.FewestPackagesFirst: covers positive package weights and a positive group weight only.
- Day24.FindMinQuantumEntanglement: requires a positive group count. The source divides by it.
- Day 24's `main` sorts the packages before searching. The model takes them in any order.

## Findings

| source | as written | input that shows it | evidently intended | confidence | as-written member | corrected member |
|---|---|---|---|---|---|---|
| day-17/src/main.rs:34 | the minimum tries the container limits `0 .. len`, leaving out `len` | containers [5] and 5 litres: one combination exists, yet the minimum is None | the limits `0 ..= len`, so that using every container counts | medium, not executed | Day17.AllContainersMissed | Day17.MinimumExists |
| day-20/src/main.rs:45 | the bound `minimum_presents / 10` rounds down | 75 presents: house 4 is returned, and it gets only 70 | the first house that gets at least `minimum_presents` presents | low, not executed | Day20.FindHouseShortfall | Day20.FindHousePart1Corrected |
