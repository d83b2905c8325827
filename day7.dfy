/** Day 7 (day-7/src/main.rs): a circuit of 16-bit wires. Each wire is
    driven by an expression over literals and other wires; the CPU evaluates
    a wire on demand and remembers every answer in a cache. A wire enters the
    cache as "no value" before its expression is evaluated, so a wire that
    depends on itself evaluates to None instead of recursing forever. */
module Day7 {
  import opened Wrappers
  import opened Strings

  datatype Expression =
    | Register(name: string)
    | Literal(value: bv16)
    | And(left: Expression, right: Expression)
    | Or(left: Expression, right: Expression)
    | LShift(left: Expression, right: Expression)
    | RShift(left: Expression, right: Expression)
    | Complement(inner: Expression)

  /** "expression -> target" */
  datatype Instruction = Instruction(target: string, expression: Expression)

  /** The expression driving each wire. */
  type Circuit = map<string, Expression>

  /** What the CPU remembers: a value, or None for a wire that is being
      evaluated or has no value. */
  type Cache = map<string, Option<bv16>>

  predicate IsBinary(e: Expression)
  {
    e.And? || e.Or? || e.LShift? || e.RShift?
  }

  /** The 16-bit operators; `wrapping_shl` and `wrapping_shr` shift by the
      amount modulo 16. */
  function Operate(e: Expression, a: bv16, b: bv16): bv16
    requires IsBinary(e)
  {
    match e
    case And(_, _) => a & b
    case Or(_, _) => a | b
    case LShift(_, _) => a << (b & 15)
    case RShift(_, _) => a >> (b & 15)
    case _ => a
  }

  // ---------------------------------------------------------------------
  // Parsing

  /** `u16::from_str` */
  function ParseU16(s: string): (r: Option<bv16>)
    ensures r.Some? <==> ParseUsize(s).Some? && ParseUsize(s).value <= 0xFFFF
  {
    match ParseUsize(s)
    case Some(v) => if v <= 0xFFFF then Some(v as bv16) else None
    case None => None
  }

  /** `Expression::parse`: split at the first " AND ", else the first
      " OR ", " LSHIFT ", " RSHIFT "; else a "NOT " prefix; else a `u16`
      literal; anything else names a wire. */
  function ParseExpression(line: string): Expression
    decreases |line|
  {
    var and := FindSubstring(line, " AND ");
    if and.Some? then
      And(ParseExpression(line[..and.value]), ParseExpression(line[and.value + 5..]))
    else
      var or := FindSubstring(line, " OR ");
      if or.Some? then
        Or(ParseExpression(line[..or.value]), ParseExpression(line[or.value + 4..]))
      else
        var lshift := FindSubstring(line, " LSHIFT ");
        if lshift.Some? then
          LShift(ParseExpression(line[..lshift.value]), ParseExpression(line[lshift.value + 8..]))
        else
          var rshift := FindSubstring(line, " RSHIFT ");
          if rshift.Some? then
            RShift(ParseExpression(line[..rshift.value]), ParseExpression(line[rshift.value + 8..]))
          else if |line| >= 4 && line[..4] == "NOT " then
            Complement(ParseExpression(line[4..]))
          else
            match ParseU16(line)
            case Some(v) => Literal(v)
            case None => Register(line)
  }

  /** `Instruction::parse`: the expression before " -> ", the wire after it;
      None where the source panics because there is no " -> ". */
  function ParseInstruction(line: string): (r: Option<Instruction>)
    ensures r.None? <==> forall k :: 0 <= k ==> !OccursAt(line, " -> ", k)
  {
    match FindSubstring(line, " -> ")
    case Some(index) => Some(Instruction(line[index + 4..], ParseExpression(line[..index])))
    case None => None
  }

  // ---------------------------------------------------------------------
  // What a wire's value is

  /** The value of `e` when every wire may be looked through at most `fuel`
      times and the wires in `avoid` have no value. */
  function Value(circuit: Circuit, e: Expression, fuel: nat, avoid: set<string>): Option<bv16>
    decreases fuel, e
  {
    match e
    case Register(n) =>
      if fuel == 0 || n in avoid || n !in circuit then None
      else Value(circuit, circuit[n], fuel - 1, avoid)
    case Literal(v) => Some(v)
    case Complement(inner) =>
      var v := Value(circuit, inner, fuel, avoid);
      if v.Some? then Some(!v.value) else None
    case _ =>
      var a := Value(circuit, e.left, fuel, avoid);
      var b := Value(circuit, e.right, fuel, avoid);
      if a.Some? && b.Some? then Some(Operate(e, a.value, b.value)) else None
  }

  /** The circuit gives `e` the value `v`: some finite unfolding of the wires
      computes it. */
  ghost predicate Denotes(circuit: Circuit, e: Expression, v: bv16)
  {
    exists fuel: nat :: Value(circuit, e, fuel, {}) == Some(v)
  }

  /** More fuel does not change a value once there is one. */
  lemma {:induction false} ValueMonotone(circuit: Circuit, e: Expression, fuel: nat, more: nat, avoid: set<string>)
    requires fuel <= more && Value(circuit, e, fuel, avoid).Some?
    ensures Value(circuit, e, more, avoid) == Value(circuit, e, fuel, avoid)
    decreases fuel, e
  {
    match e
    case Register(n) =>
      ValueMonotone(circuit, circuit[n], fuel - 1, more - 1, avoid);
    case Literal(_) =>
    case Complement(inner) =>
      ValueMonotone(circuit, inner, fuel, more, avoid);
    case _ =>
      ValueMonotone(circuit, e.left, fuel, more, avoid);
      ValueMonotone(circuit, e.right, fuel, more, avoid);
  }

  /** Avoiding fewer wires does not change a value once there is one. */
  lemma {:induction false} ValueAvoidingLess(circuit: Circuit, e: Expression, fuel: nat, avoid: set<string>, fewer: set<string>)
    requires fewer <= avoid && Value(circuit, e, fuel, avoid).Some?
    ensures Value(circuit, e, fuel, fewer) == Value(circuit, e, fuel, avoid)
    decreases fuel, e
  {
    match e
    case Register(n) =>
      ValueAvoidingLess(circuit, circuit[n], fuel - 1, avoid, fewer);
    case Literal(_) =>
    case Complement(inner) =>
      ValueAvoidingLess(circuit, inner, fuel, avoid, fewer);
    case _ =>
      ValueAvoidingLess(circuit, e.left, fuel, avoid, fewer);
      ValueAvoidingLess(circuit, e.right, fuel, avoid, fewer);
  }

  /** A wire has at most one value. */
  lemma DenotesUnique(circuit: Circuit, e: Expression, v: bv16, w: bv16)
    requires Denotes(circuit, e, v) && Denotes(circuit, e, w)
    ensures v == w
  {
    var f :| Value(circuit, e, f, {}) == Some(v);
    var g :| Value(circuit, e, g, {}) == Some(w);
    if f <= g {
      ValueMonotone(circuit, e, f, g, {});
    } else {
      ValueMonotone(circuit, e, g, f, {});
    }
  }

  /** A value computed with `fuel` either never looks through wire `n`, or
      `n`'s expression already has a value with less fuel. */
  lemma {:induction false} ValueThrough(circuit: Circuit, e: Expression, fuel: nat, avoid: set<string>, n: string)
    requires Value(circuit, e, fuel, avoid).Some?
    ensures || Value(circuit, e, fuel, avoid + {n}) == Value(circuit, e, fuel, avoid)
            || (n in circuit && exists less: nat :: less < fuel && Value(circuit, circuit[n], less, avoid).Some?)
    decreases fuel, e
  {
    match e
    case Register(m) =>
      if m != n {
        ValueThrough(circuit, circuit[m], fuel - 1, avoid, n);
      } else {
        assert Value(circuit, circuit[n], fuel - 1, avoid).Some?;
      }
    case Literal(_) =>
    case Complement(inner) =>
      ValueThrough(circuit, inner, fuel, avoid, n);
    case _ =>
      ValueThrough(circuit, e.left, fuel, avoid, n);
      ValueThrough(circuit, e.right, fuel, avoid, n);
  }

  /** A wire that has a value gets it without looking through itself: the
      value computed with the least fuel never does. */
  lemma {:induction false} ValueWithoutSelf(circuit: Circuit, n: string, fuel: nat, avoid: set<string>)
    requires n in circuit && Value(circuit, circuit[n], fuel, avoid).Some?
    ensures exists f: nat :: Value(circuit, circuit[n], f, avoid + {n}) == Value(circuit, circuit[n], fuel, avoid)
    decreases fuel
  {
    ValueThrough(circuit, circuit[n], fuel, avoid, n);
    if Value(circuit, circuit[n], fuel, avoid + {n}) != Value(circuit, circuit[n], fuel, avoid) {
      var less: nat :| less < fuel && Value(circuit, circuit[n], less, avoid).Some?;
      ValueMonotone(circuit, circuit[n], less, fuel, avoid);
      ValueWithoutSelf(circuit, n, less, avoid);
    }
  }

  // ---------------------------------------------------------------------
  // What the CPU computes

  /** A value and the cache after computing it. */
  datatype Outcome = Outcome(value: Option<bv16>, cache: Cache)

  /** `CPU::evaluate` as a function of the circuit and the cache: a cached
      wire answers from the cache; otherwise the wire is cached as None, its
      expression (if any) evaluated, and the answer cached. */
  function RegisterOutcome(circuit: Circuit, cache: Cache, name: string): (o: Outcome)
    ensures cache.Keys <= o.cache.Keys && name in o.cache && o.cache[name] == o.value
    ensures name in cache ==> o == Outcome(cache[name], cache)
    ensures name !in cache && name !in circuit ==> o == Outcome(None, cache[name := None])
    decreases circuit.Keys - cache.Keys, 0
  {
    if name in cache then Outcome(cache[name], cache)
    else
      var started := cache[name := None];
      if name !in circuit then Outcome(None, started)
      else
        assert circuit.Keys - started.Keys < circuit.Keys - cache.Keys by {
          assert name in circuit.Keys - cache.Keys && name !in circuit.Keys - started.Keys;
        }
        var o := ExpressionOutcome(circuit, started, circuit[name]);
        Outcome(o.value, o.cache[name := o.value])
  }

  /** `Expression::evaluate`: operands left to right; a missing left
      operand stops before the right one is evaluated. */
  function ExpressionOutcome(circuit: Circuit, cache: Cache, e: Expression): (o: Outcome)
    ensures cache.Keys <= o.cache.Keys
    decreases circuit.Keys - cache.Keys, 1, e
  {
    match e
    case Register(n) => RegisterOutcome(circuit, cache, n)
    case Literal(v) => Outcome(Some(v), cache)
    case Complement(inner) =>
      var o := ExpressionOutcome(circuit, cache, inner);
      Outcome(if o.value.Some? then Some(!o.value.value) else None, o.cache)
    case _ =>
      var l := ExpressionOutcome(circuit, cache, e.left);
      if l.value.None? then l
      else
        var r := ExpressionOutcome(circuit, l.cache, e.right);
        Outcome(if r.value.Some? then Some(Operate(e, l.value.value, r.value.value)) else None, r.cache)
  }

  /** Every value in the cache is the wire's value in the circuit. */
  ghost predicate Sound(circuit: Circuit, cache: Cache)
  {
    forall k :: k in cache && cache[k].Some? ==> Denotes(circuit, Register(k), cache[k].value)
  }

  /** The cache holds None exactly for the wires in `pending`, the ones
      whose evaluation has started and not finished. */
  predicate Clean(cache: Cache, pending: set<string>)
  {
    && (forall k :: k in pending ==> k in cache)
    && (forall k :: k in cache ==> (cache[k].None? <==> k in pending))
  }

  /** Every value the CPU reports is the wire's value in the circuit, and
      the cache stays truthful. */
  lemma {:induction false} RegisterSound(circuit: Circuit, cache: Cache, name: string)
    requires Sound(circuit, cache)
    ensures var o := RegisterOutcome(circuit, cache, name);
      && Sound(circuit, o.cache)
      && (o.value.Some? ==> Denotes(circuit, Register(name), o.value.value))
    decreases circuit.Keys - cache.Keys, 0
  {
    if name !in cache {
      var started := cache[name := None];
      if name in circuit {
        assert name in circuit.Keys - cache.Keys && name !in circuit.Keys - started.Keys;
        ExpressionSound(circuit, started, circuit[name]);
        var o := ExpressionOutcome(circuit, started, circuit[name]);
        if o.value.Some? {
          var f: nat :| Value(circuit, circuit[name], f, {}) == o.value;
          assert Value(circuit, Register(name), f + 1, {}) == o.value;
        }
      }
    }
  }

  lemma {:induction false} ExpressionSound(circuit: Circuit, cache: Cache, e: Expression)
    requires Sound(circuit, cache)
    ensures var o := ExpressionOutcome(circuit, cache, e);
      && Sound(circuit, o.cache)
      && (o.value.Some? ==> Denotes(circuit, e, o.value.value))
    decreases circuit.Keys - cache.Keys, 1, e, 1
  {
    match e
    case Register(n) =>
      RegisterSound(circuit, cache, n);
    case Literal(v) =>
      assert Value(circuit, e, 0, {}) == Some(v);
    case Complement(inner) =>
      ComplementSound(circuit, cache, e);
    case _ =>
      BinarySound(circuit, cache, e);
  }

  lemma {:induction false} ComplementSound(circuit: Circuit, cache: Cache, e: Expression)
    requires e.Complement? && Sound(circuit, cache)
    ensures var o := ExpressionOutcome(circuit, cache, e);
      && Sound(circuit, o.cache)
      && (o.value.Some? ==> Denotes(circuit, e, o.value.value))
    decreases circuit.Keys - cache.Keys, 1, e, 0
  {
    ExpressionSound(circuit, cache, e.inner);
    var o := ExpressionOutcome(circuit, cache, e.inner);
    if o.value.Some? {
      ComplementDenotes(circuit, e.inner, o.value.value);
    }
  }

  /** An operand with a value gives its complement a value. */
  lemma ComplementDenotes(circuit: Circuit, inner: Expression, v: bv16)
    requires Denotes(circuit, inner, v)
    ensures Denotes(circuit, Complement(inner), !v)
  {
    var f: nat :| Value(circuit, inner, f, {}) == Some(v);
    assert Value(circuit, Complement(inner), f, {}) == Some(!v);
  }

  lemma {:induction false} BinarySound(circuit: Circuit, cache: Cache, e: Expression)
    requires IsBinary(e) && Sound(circuit, cache)
    ensures var o := ExpressionOutcome(circuit, cache, e);
      && Sound(circuit, o.cache)
      && (o.value.Some? ==> Denotes(circuit, e, o.value.value))
    decreases circuit.Keys - cache.Keys, 1, e, 0
  {
    ExpressionSound(circuit, cache, e.left);
    var l := ExpressionOutcome(circuit, cache, e.left);
    if l.value.Some? {
      ExpressionSound(circuit, l.cache, e.right);
      var r := ExpressionOutcome(circuit, l.cache, e.right);
      if r.value.Some? {
        BinaryDenotes(circuit, e, l.value.value, r.value.value);
      }
    }
  }

  /** Operands with values give a binary expression its value. */
  lemma BinaryDenotes(circuit: Circuit, e: Expression, a: bv16, b: bv16)
    requires IsBinary(e) && Denotes(circuit, e.left, a) && Denotes(circuit, e.right, b)
    ensures Denotes(circuit, e, Operate(e, a, b))
  {
    var f: nat :| Value(circuit, e.left, f, {}) == Some(a);
    var g: nat :| Value(circuit, e.right, g, {}) == Some(b);
    var most := Max(f, g);
    ValueMonotone(circuit, e.left, f, most, {});
    ValueMonotone(circuit, e.right, g, most, {});
    assert Value(circuit, e, most, {}) == Some(Operate(e, a, b));
  }

  /** With a truthful cache that holds None only for pending wires, the CPU
      finds every value that avoids the pending wires, and leaves the cache
      truthful and clean. */
  lemma {:induction false} RegisterComplete(circuit: Circuit, cache: Cache, name: string,
                                            pending: set<string>, fuel: nat, v: bv16)
    requires Sound(circuit, cache) && Clean(cache, pending)
    requires Value(circuit, Register(name), fuel, pending) == Some(v)
    ensures var o := RegisterOutcome(circuit, cache, name);
      o.value == Some(v) && Clean(o.cache, pending) && Sound(circuit, o.cache)
    decreases circuit.Keys - cache.Keys, 0
  {
    RegisterSound(circuit, cache, name);
    ValueAvoidingLess(circuit, Register(name), fuel, pending, {});
    if name in cache {
      DenotesUnique(circuit, Register(name), cache[name].value, v);
    } else {
      var started := cache[name := None];
      assert name in circuit.Keys - cache.Keys && name !in circuit.Keys - started.Keys;
      ValueWithoutSelf(circuit, name, fuel - 1, pending);
      var f: nat :| Value(circuit, circuit[name], f, pending + {name}) == Some(v);
      ExpressionComplete(circuit, started, circuit[name], pending + {name}, f, v);
    }
  }

  lemma {:induction false} ExpressionComplete(circuit: Circuit, cache: Cache, e: Expression,
                                              pending: set<string>, fuel: nat, v: bv16)
    requires Sound(circuit, cache) && Clean(cache, pending)
    requires Value(circuit, e, fuel, pending) == Some(v)
    ensures var o := ExpressionOutcome(circuit, cache, e);
      o.value == Some(v) && Clean(o.cache, pending) && Sound(circuit, o.cache)
    decreases circuit.Keys - cache.Keys, 1, e, 1
  {
    ExpressionSound(circuit, cache, e);
    match e
    case Register(n) =>
      RegisterComplete(circuit, cache, n, pending, fuel, v);
    case Literal(_) =>
    case Complement(inner) =>
      ComplementComplete(circuit, cache, e, pending, fuel, v);
    case _ =>
      BinaryComplete(circuit, cache, e, pending, fuel, v);
  }

  lemma {:induction false} ComplementComplete(circuit: Circuit, cache: Cache, e: Expression,
                                              pending: set<string>, fuel: nat, v: bv16)
    requires e.Complement? && Sound(circuit, cache) && Clean(cache, pending)
    requires Value(circuit, e, fuel, pending) == Some(v)
    ensures var o := ExpressionOutcome(circuit, cache, e);
      o.value == Some(v) && Clean(o.cache, pending) && Sound(circuit, o.cache)
    decreases circuit.Keys - cache.Keys, 1, e, 0
  {
    ExpressionSound(circuit, cache, e);
    ExpressionComplete(circuit, cache, e.inner, pending, fuel, Value(circuit, e.inner, fuel, pending).value);
  }

  lemma {:induction false} BinaryComplete(circuit: Circuit, cache: Cache, e: Expression,
                                          pending: set<string>, fuel: nat, v: bv16)
    requires IsBinary(e) && Sound(circuit, cache) && Clean(cache, pending)
    requires Value(circuit, e, fuel, pending) == Some(v)
    ensures var o := ExpressionOutcome(circuit, cache, e);
      o.value == Some(v) && Clean(o.cache, pending) && Sound(circuit, o.cache)
    decreases circuit.Keys - cache.Keys, 1, e, 0
  {
    ExpressionSound(circuit, cache, e);
    ExpressionComplete(circuit, cache, e.left, pending, fuel, Value(circuit, e.left, fuel, pending).value);
    var l := ExpressionOutcome(circuit, cache, e.left);
    ExpressionComplete(circuit, l.cache, e.right, pending, fuel, Value(circuit, e.right, fuel, pending).value);
  }

  /** From a truthful cache without None entries, evaluating a wire gives
      `Some(v)` exactly when the circuit gives it the value `v`, and keeps
      the cache truthful and free of None entries. */
  lemma EvaluateIsValue(circuit: Circuit, cache: Cache, name: string)
    requires Sound(circuit, cache) && Clean(cache, {})
    ensures var o := RegisterOutcome(circuit, cache, name);
      && (forall v :: o.value == Some(v) <==> Denotes(circuit, Register(name), v))
      && Sound(circuit, o.cache)
      && (o.value.Some? ==> Clean(o.cache, {}))
  {
    RegisterSound(circuit, cache, name);
    forall v | Denotes(circuit, Register(name), v)
      ensures RegisterOutcome(circuit, cache, name).value == Some(v)
    {
      var f: nat :| Value(circuit, Register(name), f, {}) == Some(v);
      RegisterComplete(circuit, cache, name, {}, f, v);
    }
    var o := RegisterOutcome(circuit, cache, name);
    if o.value.Some? {
      var f: nat :| Value(circuit, Register(name), f, {}) == o.value;
      RegisterComplete(circuit, cache, name, {}, f, o.value.value);
    }
  }

  // ---------------------------------------------------------------------
  // The CPU

  /** The circuit after inserting the instructions in order; a later
      instruction for the same wire replaces an earlier one. */
  function Inserted(circuit: Circuit, instructions: seq<Instruction>): (r: Circuit)
    ensures r.Keys == circuit.Keys + set k | 0 <= k < |instructions| :: instructions[k].target
    decreases |instructions|
  {
    if |instructions| == 0 then circuit
    else
      var rest := instructions[1..];
      assert forall k :: 0 <= k < |rest| ==> rest[k] == instructions[k + 1];
      Inserted(circuit[instructions[0].target := instructions[0].expression], rest)
  }

  class CPU {
    var registers: Circuit
    var cache: Cache

    /** `CPU::new`: no wires and nothing cached. */
    constructor ()
      ensures registers == map[] && cache == map[]
    {
      registers := map[];
      cache := map[];
    }

    /** `insert`: the instruction's expression now drives its wire. */
    method Insert(instruction: Instruction)
      modifies this
      ensures registers == old(registers)[instruction.target := instruction.expression]
      ensures cache == old(cache)
    {
      registers := registers[instruction.target := instruction.expression];
    }

    /** `insert_all` */
    method InsertAll(instructions: seq<Instruction>)
      modifies this
      ensures registers == Inserted(old(registers), instructions)
      ensures cache == old(cache)
    {
      for k := 0 to |instructions|
        invariant Inserted(old(registers), instructions) == Inserted(registers, instructions[k..])
        invariant cache == old(cache)
      {
        assert instructions[k..][1..] == instructions[k + 1..];
        Insert(instructions[k]);
      }
    }

    /** `clear_cache` */
    method ClearCache()
      modifies this
      ensures cache == map[] && registers == old(registers)
    {
      cache := map[];
    }

    /** `set_cache_value` */
    method SetCacheValue(register: string, value: Option<bv16>)
      modifies this
      ensures cache == old(cache)[register := value] && registers == old(registers)
    {
      cache := cache[register := value];
    }

    /** `CPU::evaluate` */
    method Evaluate(register: string) returns (result: Option<bv16>)
      modifies this
      ensures registers == old(registers)
      ensures Outcome(result, cache) == RegisterOutcome(registers, old(cache), register)
      decreases registers.Keys - cache.Keys, 0
    {
      if register in cache {
        result := cache[register];
      } else {
        SetCacheValue(register, None);
        if register in registers {
          assert register in registers.Keys - old(cache.Keys) && register !in registers.Keys - cache.Keys;
          result := EvaluateExpression(registers[register]);
        } else {
          result := None;
        }
        SetCacheValue(register, result);
      }
    }

    /** `Expression::evaluate` against this CPU. */
    method EvaluateExpression(e: Expression) returns (result: Option<bv16>)
      modifies this
      ensures registers == old(registers)
      ensures Outcome(result, cache) == ExpressionOutcome(registers, old(cache), e)
      decreases registers.Keys - cache.Keys, 1, e
    {
      match e
      case Register(n) =>
        result := Evaluate(n);
      case Literal(v) =>
        result := Some(v);
      case Complement(inner) =>
        var v := EvaluateExpression(inner);
        result := if v.Some? then Some(!v.value) else None;
      case _ =>
        var l := EvaluateExpression(e.left);
        if l.None? {
          result := None;
        } else {
          var r := EvaluateExpression(e.right);
          result := if r.Some? then Some(Operate(e, l.value, r.value)) else None;
        }
    }
  }

  // ---------------------------------------------------------------------
  // The tests of the source

  /** A wire name as the puzzle writes them: lower-case letters. */
  predicate IsWire(name: string)
  {
    |name| > 0 && forall i :: 0 <= i < |name| ==> 'a' <= name[i] <= 'z'
  }

  /** An operand: a wire or a literal. */
  predicate IsAtom(e: Expression)
  {
    (e.Register? && IsWire(e.name)) || e.Literal?
  }

  /** The expressions the puzzle input uses: an operand, a negated operand
      or two operands joined by a binary gate. */
  predicate IsGate(e: Expression)
  {
    || IsAtom(e)
    || (e.Complement? && IsAtom(e.inner))
    || (IsBinary(e) && IsAtom(e.left) && IsAtom(e.right))
  }

  function FormatAtom(e: Expression): (s: string)
    requires IsAtom(e)
  {
    if e.Register? then e.name else Decimal(e.value as nat)
  }

  function GateWord(e: Expression): string
    requires IsBinary(e)
  {
    match e
    case And(_, _) => " AND "
    case Or(_, _) => " OR "
    case LShift(_, _) => " LSHIFT "
    case RShift(_, _) => " RSHIFT "
    case _ => ""
  }

  /** A gate written the way the puzzle input writes it. */
  function FormatExpression(e: Expression): string
    requires IsGate(e)
  {
    if IsAtom(e) then FormatAtom(e)
    else if e.Complement? then "NOT " + FormatAtom(e.inner)
    else FormatAtom(e.left) + GateWord(e) + FormatAtom(e.right)
  }

  function FormatInstruction(instruction: Instruction): string
    requires IsGate(instruction.expression)
  {
    FormatExpression(instruction.expression) + " -> " + instruction.target
  }

  /** Every place in `s` that starts like `p` breaks off at once. */
  predicate NoFalseStart(s: string, p: string)
    requires |p| >= 2
  {
    forall j :: 0 <= j < |s| && s[j] == p[0] ==> j + 1 < |s| && s[j + 1] != p[1]
  }

  lemma OccursStart(s: string, p: string, j: nat)
    requires |p| >= 2 && OccursAt(s, p, j)
    ensures s[j] == p[0] && s[j + 1] == p[1]
  {
    assert s[j..j + |p|][0] == s[j] && s[j..j + |p|][1] == s[j + 1];
  }

  /** `p` does not occur in a string without false starts. */
  lemma FindNothing(s: string, p: string)
    requires |p| >= 2 && NoFalseStart(s, p)
    ensures FindSubstring(s, p) == None
  {
    if FindSubstring(s, p).Some? {
      OccursStart(s, p, FindSubstring(s, p).value);
    }
  }

  /** After a stretch without false starts, the first `p` is the one that
      follows it. */
  lemma FindAfterStretch(s: string, p: string, rest: string)
    requires |p| >= 2 && NoFalseStart(s, p)
    ensures FindSubstring(s + p + rest, p) == Some(|s|)
  {
    var t := s + p + rest;
    assert OccursAt(t, p, |s|) by {
      assert t[|s|..|s| + |p|] == p;
    }
    var r := FindSubstring(t, p);
    OccursStart(t, p, r.value);
  }

  predicate NoSpace(s: string)
  {
    forall i :: 0 <= i < |s| ==> s[i] != ' '
  }

  predicate IsAtomChar(c: char)
  {
    'a' <= c <= 'z' || '0' <= c <= '9'
  }

  lemma AtomText(e: Expression)
    requires IsAtom(e)
    ensures var s := FormatAtom(e);
      && |s| > 0 && NoSpace(s) && forall i :: 0 <= i < |s| ==> IsAtomChar(s[i])
  {
  }

  /** A gate word is an upper-case word between two spaces. */
  lemma GateWordShape(e: Expression)
    requires IsBinary(e)
    ensures var w := GateWord(e);
      && |w| >= 3 && w[0] == ' ' && w[|w| - 1] == ' ' && NoSpace(w[1..|w| - 1])
      && 'A' <= w[1] <= 'Z'
  {
    var w := GateWord(e);
    match e
    case And(_, _) => assert w[1..|w| - 1] == "AND";
    case Or(_, _) => assert w[1..|w| - 1] == "OR";
    case LShift(_, _) => assert w[1..|w| - 1] == "LSHIFT";
    case RShift(_, _) => assert w[1..|w| - 1] == "RSHIFT";
  }

  /** In `a + w + b`, with spaces only at both ends of the gate word `w`,
      no space is followed by `p[1]`. */
  lemma GateSpaces(a: string, w: string, b: string, p: string)
    requires NoSpace(a) && NoSpace(b) && |b| > 0
    requires |w| >= 3 && w[0] == ' ' && w[|w| - 1] == ' ' && NoSpace(w[1..|w| - 1])
    requires |p| >= 2 && p[0] == ' ' && p[1] != w[1] && p[1] != b[0]
    ensures NoFalseStart(a + w + b, p)
  {
    var s := a + w + b;
    forall j | 0 <= j < |s| && s[j] == p[0]
      ensures j + 1 < |s| && s[j + 1] != p[1]
    {
      if j == |a| {
        assert s[j + 1] == w[1];
      } else if j == |a| + |w| - 1 {
        assert s[j + 1] == b[0];
      }
    }
  }

  /** In "NOT " followed by an operand the only space is followed by the
      operand. */
  lemma NotSpaces(a: string, p: string)
    requires NoSpace(a) && |a| > 0
    requires |p| >= 2 && p[0] == ' ' && p[1] != a[0]
    ensures NoFalseStart("NOT " + a, p)
  {
    var s := "NOT " + a;
    forall j | 0 <= j < |s| && s[j] == p[0]
      ensures j + 1 < |s| && s[j + 1] != p[1]
    {
    }
  }

  /** An operand parses back to itself. */
  lemma ParseAtom(e: Expression)
    requires IsAtom(e)
    ensures ParseExpression(FormatAtom(e)) == e
  {
    if e.Register? {
      ParseWire(e.name);
    } else {
      ParseLiteral(e.value);
    }
  }

  /** A wire name parses as that wire: it is not a number. */
  lemma ParseWire(name: string)
    requires IsWire(name)
    ensures ParseExpression(name) == Register(name)
  {
    AtomText(Register(name));
    ParsePlain(name);
    assert !IsDigit(name[0]) && name[0] != '+';
    ParseUsizeRejects(name);
  }

  /** A literal's decimal text parses as that literal. */
  lemma ParseLiteral(value: bv16)
    ensures ParseExpression(Decimal(value as nat)) == Literal(value)
  {
    var n := value as nat;
    AtomText(Literal(value));
    ParsePlain(Decimal(n));
    ParseUsizeDecimal(n);
    assert n <= 0xFFFF;
    assert ParseU16(Decimal(n)) == Some(n as bv16);
    NarrowWiden(value);
  }

  /** Widening a 16-bit value and narrowing it back gives the value. */
  lemma NarrowWiden(value: bv16)
    ensures (value as nat) as bv16 == value
  {
  }

  /** Text made of operand characters holds no gate word and no "NOT ": it
      parses as a literal when it is one, and as a wire otherwise. */
  lemma ParsePlain(s: string)
    requires |s| > 0 && NoSpace(s) && forall i :: 0 <= i < |s| ==> IsAtomChar(s[i])
    ensures ParseExpression(s) == match ParseU16(s) case Some(v) => Literal(v) case None => Register(s)
  {
    FindNothing(s, " AND ");
    FindNothing(s, " OR ");
    FindNothing(s, " LSHIFT ");
    FindNothing(s, " RSHIFT ");
    NoComplementPrefix(s);
  }

  /** Text without a space does not start with "NOT ". */
  lemma NoComplementPrefix(s: string)
    requires NoSpace(s)
    ensures !(|s| >= 4 && s[..4] == "NOT ")
  {
    if |s| >= 4 {
      assert s[..4][3] == s[3] != ' ';
    }
  }

  /** A gate parses back to itself. */
  lemma ParseGate(e: Expression)
    requires IsGate(e)
    ensures ParseExpression(FormatExpression(e)) == e
  {
    if IsAtom(e) {
      ParseAtom(e);
    } else if e.Complement? {
      ParseComplement(e);
    } else {
      ParseBinary(e);
    }
  }

  lemma ParseComplement(e: Expression)
    requires e.Complement? && IsAtom(e.inner)
    ensures ParseExpression(FormatExpression(e)) == e
  {
    var a := FormatAtom(e.inner);
    var s := "NOT " + a;
    AtomText(e.inner);
    NotSpaces(a, " AND ");
    NotSpaces(a, " OR ");
    NotSpaces(a, " LSHIFT ");
    NotSpaces(a, " RSHIFT ");
    FindNothing(s, " AND ");
    FindNothing(s, " OR ");
    FindNothing(s, " LSHIFT ");
    FindNothing(s, " RSHIFT ");
    assert s[..4] == "NOT " && s[4..] == a;
    ParseAtom(e.inner);
  }

  /** The operands of a written binary gate, and where the gate word is
      found. */
  lemma BinaryText(e: Expression)
    requires IsBinary(e) && IsAtom(e.left) && IsAtom(e.right)
    ensures var a, w, b := FormatAtom(e.left), GateWord(e), FormatAtom(e.right);
      && FormatExpression(e) == a + w + b
      && FindSubstring(a + w + b, w) == Some(|a|)
      && (a + w + b)[..|a|] == a && (a + w + b)[|a| + |w|..] == b
  {
    var a, w, b := FormatAtom(e.left), GateWord(e), FormatAtom(e.right);
    AtomText(e.left);
    AtomText(e.right);
    assert NoFalseStart(a, w);
    FindAfterStretch(a, w, b);
    assert (a + w + b)[..|a|] == a;
    assert (a + w + b)[|a| + |w|..] == b;
  }

  lemma ParseBinary(e: Expression)
    requires IsBinary(e) && IsAtom(e.left) && IsAtom(e.right)
    ensures ParseExpression(FormatExpression(e)) == e
  {
    if e.And? {
      ParseAndGate(e);
    } else if e.Or? {
      ParseOrGate(e);
    } else if e.LShift? {
      ParseLShiftGate(e);
    } else {
      ParseRShiftGate(e);
    }
  }

  lemma ParseAndGate(e: Expression)
    requires e.And? && IsAtom(e.left) && IsAtom(e.right)
    ensures ParseExpression(FormatExpression(e)) == e
  {
    var a, w, b := FormatAtom(e.left), GateWord(e), FormatAtom(e.right);
    BinaryText(e);
    AtomText(e.right);
    GateWordShape(e);
    ParseAtom(e.left);
    ParseAtom(e.right);
  }

  lemma ParseOrGate(e: Expression)
    requires e.Or? && IsAtom(e.left) && IsAtom(e.right)
    ensures ParseExpression(FormatExpression(e)) == e
  {
    var a, w, b := FormatAtom(e.left), GateWord(e), FormatAtom(e.right);
    BinaryText(e);
    AtomText(e.right);
    GateWordShape(e);
    GateSpaces(a, w, b, " AND ");
    FindNothing(a + w + b, " AND ");
    ParseAtom(e.left);
    ParseAtom(e.right);
  }

  lemma ParseLShiftGate(e: Expression)
    requires e.LShift? && IsAtom(e.left) && IsAtom(e.right)
    ensures ParseExpression(FormatExpression(e)) == e
  {
    var a, w, b := FormatAtom(e.left), GateWord(e), FormatAtom(e.right);
    BinaryText(e);
    AtomText(e.right);
    GateWordShape(e);
    GateSpaces(a, w, b, " AND ");
    FindNothing(a + w + b, " AND ");
    GateSpaces(a, w, b, " OR ");
    FindNothing(a + w + b, " OR ");
    ParseAtom(e.left);
    ParseAtom(e.right);
  }

  lemma ParseRShiftGate(e: Expression)
    requires e.RShift? && IsAtom(e.left) && IsAtom(e.right)
    ensures ParseExpression(FormatExpression(e)) == e
  {
    var a, w, b := FormatAtom(e.left), GateWord(e), FormatAtom(e.right);
    BinaryText(e);
    AtomText(e.right);
    GateWordShape(e);
    GateSpaces(a, w, b, " AND ");
    FindNothing(a + w + b, " AND ");
    GateSpaces(a, w, b, " OR ");
    FindNothing(a + w + b, " OR ");
    GateSpaces(a, w, b, " LSHIFT ");
    FindNothing(a + w + b, " LSHIFT ");
    ParseAtom(e.left);
    ParseAtom(e.right);
  }

  /** Every instruction of the puzzle's form survives printing and
      parsing. */
  lemma ParseFormat(instruction: Instruction)
    requires IsGate(instruction.expression) && IsWire(instruction.target)
    ensures ParseInstruction(FormatInstruction(instruction)) == Some(instruction)
  {
    var e := instruction.expression;
    var s := FormatExpression(e);
    GateText(e);
    FindAfterStretch(s, " -> ", instruction.target);
    var t := s + " -> " + instruction.target;
    assert t[..|s|] == s && t[|s| + 4..] == instruction.target;
    ParseGate(e);
  }

  /** In a written gate every space is followed by a letter or a digit. */
  lemma GateText(e: Expression)
    requires IsGate(e)
    ensures NoFalseStart(FormatExpression(e), " -> ")
  {
    if IsAtom(e) {
      AtomText(e);
    } else if e.Complement? {
      AtomText(e.inner);
      NotSpaces(FormatAtom(e.inner), " -> ");
    } else {
      AtomText(e.left);
      AtomText(e.right);
      assert IsBinary(e);
      var w := GateWord(e);
      GateWordShape(e);
      GateSpaces(FormatAtom(e.left), w, FormatAtom(e.right), " -> ");
    }
  }

  /** The eight instructions of the parsing test, one lemma each. */
  lemma ParseExample1()
    ensures ParseInstruction("123 -> x") == Some(Instruction("x", Literal(123)))
  {
    assert Decimal(123) == "123";
    ParseExample(Instruction("x", Literal(123)), "123 -> x");
  }

  lemma ParseExample2()
    ensures ParseInstruction("456 -> y") == Some(Instruction("y", Literal(456)))
  {
    assert Decimal(456) == "456";
    ParseExample(Instruction("y", Literal(456)), "456 -> y");
  }

  lemma ParseExample3()
    ensures ParseInstruction("x AND y -> d") == Some(Instruction("d", And(Register("x"), Register("y"))))
  {
    ParseExample(Instruction("d", And(Register("x"), Register("y"))), "x AND y -> d");
  }

  lemma ParseExample4()
    ensures ParseInstruction("x OR y -> e") == Some(Instruction("e", Or(Register("x"), Register("y"))))
  {
    ParseExample(Instruction("e", Or(Register("x"), Register("y"))), "x OR y -> e");
  }

  lemma ParseExample5()
    ensures ParseInstruction("x LSHIFT 2 -> f") == Some(Instruction("f", LShift(Register("x"), Literal(2))))
  {
    assert Decimal(2) == "2";
    ParseExample(Instruction("f", LShift(Register("x"), Literal(2))), "x LSHIFT 2 -> f");
  }

  lemma ParseExample6()
    ensures ParseInstruction("y RSHIFT 2 -> g") == Some(Instruction("g", RShift(Register("y"), Literal(2))))
  {
    assert Decimal(2) == "2";
    ParseExample(Instruction("g", RShift(Register("y"), Literal(2))), "y RSHIFT 2 -> g");
  }

  lemma ParseExample7()
    ensures ParseInstruction("NOT x -> h") == Some(Instruction("h", Complement(Register("x"))))
  {
    ParseExample(Instruction("h", Complement(Register("x"))), "NOT x -> h");
  }

  lemma ParseExample8()
    ensures ParseInstruction("NOT y -> i") == Some(Instruction("i", Complement(Register("y"))))
  {
    ParseExample(Instruction("i", Complement(Register("y"))), "NOT y -> i");
  }

  lemma ParseExample(instruction: Instruction, line: string)
    requires IsGate(instruction.expression) && IsWire(instruction.target)
    requires FormatInstruction(instruction) == line
    ensures ParseInstruction(line) == Some(instruction)
  {
    ParseFormat(instruction);
  }

  /** The circuit of the execution test, in the order its lines are
      inserted. */
  const ExecuteInstructions: seq<Instruction> := [
    Instruction("i", Complement(Register("y"))),
    Instruction("e", Or(Register("x"), Register("y"))),
    Instruction("x", Literal(123)),
    Instruction("y", Literal(456)),
    Instruction("d", And(Register("x"), Register("y"))),
    Instruction("f", LShift(Register("x"), Literal(2))),
    Instruction("g", RShift(Register("y"), Literal(2))),
    Instruction("h", Complement(Register("x")))
  ]

  const ExecuteCircuit: Circuit := map[
    "i" := Complement(Register("y")),
    "e" := Or(Register("x"), Register("y")),
    "x" := Literal(123),
    "y" := Literal(456),
    "d" := And(Register("x"), Register("y")),
    "f" := LShift(Register("x"), Literal(2)),
    "g" := RShift(Register("y"), Literal(2)),
    "h" := Complement(Register("x"))
  ]

  /** Inserting the test's lines into an empty CPU gives that circuit. */
  lemma ExecuteInserted()
    ensures Inserted(map[], ExecuteInstructions) == ExecuteCircuit
  {
    var I := ExecuteInstructions;
    var m: Circuit := map[];
    for k := 0 to |I|
      invariant Inserted(map[], I) == Inserted(m, I[k..])
      invariant k == 8 ==> m == ExecuteCircuit
    {
      assert I[k..][1..] == I[k + 1..];
      m := m[I[k].target := I[k].expression];
    }
    assert I[|I|..] == [];
  }

  /** The wires of the execution test's circuit. */
  lemma ExecuteWires()
    ensures ExecuteCircuit["d"] == And(Register("x"), Register("y"))
    ensures ExecuteCircuit["e"] == Or(Register("x"), Register("y"))
    ensures ExecuteCircuit["f"] == LShift(Register("x"), Literal(2))
    ensures ExecuteCircuit["g"] == RShift(Register("y"), Literal(2))
    ensures ExecuteCircuit["h"] == Complement(Register("x"))
    ensures ExecuteCircuit["i"] == Complement(Register("y"))
    ensures ExecuteCircuit["x"] == Literal(123)
    ensures ExecuteCircuit["y"] == Literal(456)
  {
  }

  /** The two inputs settle after one step. */
  lemma ExecuteInputs()
    ensures Value(ExecuteCircuit, Register("x"), 1, {}) == Some(123)
    ensures Value(ExecuteCircuit, Register("y"), 1, {}) == Some(456)
  {
    assert ExecuteCircuit["x"] == Literal(123);
    assert ExecuteCircuit["y"] == Literal(456);
  }

  /** A wire driven by the complement of a wire that holds a literal. */
  lemma ComplementWire(circuit: Circuit, n: string, m: string, v: bv16)
    requires n in circuit && m in circuit
    requires circuit[n] == Complement(Register(m)) && circuit[m] == Literal(v)
    ensures Denotes(circuit, Register(n), !v)
  {
    assert Value(circuit, Register(m), 1, {}) == Some(v);
    assert Value(circuit, Register(n), 2, {}) == Some(!v);
  }

  /** The four gates of the execution test on its inputs. */
  lemma OperateExamples()
    ensures Operate(And(Register("x"), Register("y")), 123, 456) == 72
    ensures Operate(Or(Register("x"), Register("y")), 123, 456) == 507
    ensures Operate(LShift(Register("x"), Literal(2)), 123, 2) == 492
    ensures Operate(RShift(Register("y"), Literal(2)), 456, 2) == 114
  {
  }

  /** A wire driven by a binary gate whose operands settle after one step. */
  lemma BinaryWire(circuit: Circuit, n: string, e: Expression, a: bv16, b: bv16)
    requires n in circuit && circuit[n] == e && IsBinary(e)
    requires Value(circuit, e.left, 1, {}) == Some(a) && Value(circuit, e.right, 1, {}) == Some(b)
    ensures Denotes(circuit, Register(n), Operate(e, a, b))
  {
    assert Value(circuit, e, 1, {}) == Some(Operate(e, a, b));
    assert Value(circuit, Register(n), 2, {}) == Some(Operate(e, a, b));
  }

  lemma ExecuteGateD()
    ensures Denotes(ExecuteCircuit, Register("d"), 72)
  {
    ExecuteWires();
    ExecuteInputs();
    BinaryWire(ExecuteCircuit, "d", And(Register("x"), Register("y")), 123, 456);
    OperateExamples();
  }

  lemma ExecuteGateE()
    ensures Denotes(ExecuteCircuit, Register("e"), 507)
  {
    ExecuteWires();
    ExecuteInputs();
    BinaryWire(ExecuteCircuit, "e", Or(Register("x"), Register("y")), 123, 456);
    OperateExamples();
  }

  lemma ExecuteGateF()
    ensures Denotes(ExecuteCircuit, Register("f"), 492)
  {
    ExecuteWires();
    ExecuteInputs();
    BinaryWire(ExecuteCircuit, "f", LShift(Register("x"), Literal(2)), 123, 2);
    OperateExamples();
  }

  lemma ExecuteGateG()
    ensures Denotes(ExecuteCircuit, Register("g"), 114)
  {
    ExecuteWires();
    ExecuteInputs();
    BinaryWire(ExecuteCircuit, "g", RShift(Register("y"), Literal(2)), 456, 2);
    OperateExamples();
  }

  lemma ExecuteGateH()
    ensures Denotes(ExecuteCircuit, Register("h"), 65412)
  {
    ExecuteWires();
    ComplementWire(ExecuteCircuit, "h", "x", 123);
  }

  lemma ExecuteGateI()
    ensures Denotes(ExecuteCircuit, Register("i"), 65079)
  {
    ExecuteWires();
    ComplementWire(ExecuteCircuit, "i", "y", 456);
  }

  /** The values the execution test expects are the wires' values. */
  lemma ExecuteDenotes()
    ensures Denotes(ExecuteCircuit, Register("d"), 72)
    ensures Denotes(ExecuteCircuit, Register("e"), 507)
    ensures Denotes(ExecuteCircuit, Register("f"), 492)
    ensures Denotes(ExecuteCircuit, Register("g"), 114)
    ensures Denotes(ExecuteCircuit, Register("h"), 65412)
    ensures Denotes(ExecuteCircuit, Register("i"), 65079)
    ensures Denotes(ExecuteCircuit, Register("x"), 123)
    ensures Denotes(ExecuteCircuit, Register("y"), 456)
  {
    ExecuteInputs();
    ExecuteGateD();
    ExecuteGateE();
    ExecuteGateF();
    ExecuteGateG();
    ExecuteGateH();
    ExecuteGateI();
  }

  /** Evaluating any of the test's wires, from a fresh cache or one left by
      earlier evaluations, reports the value the test expects. */
  lemma ExecuteExample(cache: Cache, name: string, v: bv16)
    requires Sound(ExecuteCircuit, cache) && Clean(cache, {})
    requires (name, v) in {("d", 72), ("e", 507), ("f", 492), ("g", 114),
                           ("h", 65412), ("i", 65079), ("x", 123), ("y", 456)}
    ensures var o := RegisterOutcome(ExecuteCircuit, cache, name);
      && o.value == Some(v) && Sound(ExecuteCircuit, o.cache) && Clean(o.cache, {})
  {
    ExecuteDenotes();
    EvaluateIsValue(ExecuteCircuit, cache, name);
  }

  /** The circuit of the loop test: `x` and `b` feed each other. */
  const LoopCircuit: Circuit := map[
    "a" := And(Literal(5), Register("x")),
    "b" := Complement(Register("x")),
    "x" := And(Register("y"), Register("b")),
    "y" := Literal(456)
  ]

  /** However much fuel is given, `x` never settles. */
  lemma {:induction false} LoopNeverSettles(fuel: nat)
    ensures Value(LoopCircuit, Register("x"), fuel, {}) == None
    decreases fuel
  {
    if fuel >= 2 {
      LoopNeverSettles(fuel - 2);
      assert Value(LoopCircuit, Register("b"), fuel - 1, {}) == None;
    }
  }

  /** The loop test: `a` depends on the loop, so evaluating it reports
      nothing, whatever truthful cache the CPU starts from. */
  lemma LoopExample(cache: Cache)
    requires Sound(LoopCircuit, cache)
    ensures RegisterOutcome(LoopCircuit, cache, "a").value == None
  {
    forall v: bv16 ensures !Denotes(LoopCircuit, Register("a"), v) {
      forall fuel: nat ensures Value(LoopCircuit, Register("a"), fuel, {}) != Some(v) {
        if fuel >= 1 {
          LoopNeverSettles(fuel - 1);
        }
      }
    }
    RegisterSound(LoopCircuit, cache, "a");
  }
}
