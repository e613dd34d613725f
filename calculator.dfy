/** The engine of `iced-calculator`: the `Calculator` state and `Calculator::update`,
    an immediate-execution calculator that chains binary operators left to right. */
module IcedCalculator {
  import opened Wrappers
  import opened Float64
  import Decimal
  import Fact = Factorial

  datatype Operator = Add | Subtract | Multiply | Divide | Exponentiate
  datatype TrigFunction = Sine | Cosine | Tangent
  datatype LogFunction = Log10 | Ln
  datatype AngleMode = Degrees | Radians

  datatype Message =
    | Input(value: string)
    | Clear
    | Calculate
    | OperatorPressed(op: Operator)
    | TrigFunctionPressed(trigFn: TrigFunction)
    | LogFunctionPressed(logFn: LogFunction)
    | Exponentiate
    | SquareRoot
    | ToggleAngleMode
    | Factorial
    | Square
    | Cube
    | Reciprocal
    | RootY
    | Exponential
    | Euler
    | EE
    | Percentage

  /** The binary operation `calculate` performs for a pending operator. */
  function ApplyOperator(lib: FloatLib, op: Operator, a: F64, b: F64): F64 {
    match op
    case Add => lib.add(a, b)
    case Subtract => lib.sub(a, b)
    case Multiply => lib.mul(a, b)
    case Divide => lib.div(a, b)
    case Exponentiate => lib.powf(a, b)
  }

  /** The transcendental function a trig button names, applied to an angle in radians. */
  function Trig(lib: FloatLib, trigFn: TrigFunction, radians: F64): F64 {
    match trigFn
    case Sine => lib.sin(radians)
    case Cosine => lib.cos(radians)
    case Tangent => lib.tan(radians)
  }

  function Flip(mode: AngleMode): AngleMode {
    match mode
    case Degrees => Radians
    case Radians => Degrees
  }

  /** The value of the five fields of a `Calculator`. Its member functions say what
      each helper of `Calculator` does to them. */
  datatype CalcState = CalcState(
    input: string,
    result: string,
    operator: Option<Operator>,
    operand: Option<F64>,
    angleMode: AngleMode)
  {
    /** `Calculator::clear`: the angle mode is kept. */
    function Clear(): CalcState {
      this.(input := "", result := "", operand := None, operator := None)
    }

    /** `Calculator::calculate`: with an operator and an operand pending and an input
        that parses, the result replaces the operand and the operator is consumed. */
    function Calculate(lib: FloatLib): CalcState {
      if operator.Some? && operand.Some? && lib.parse(input).Some? then
        var r := ApplyOperator(lib, operator.value, operand.value, lib.parse(input).value);
        this.(result := lib.show(r), input := "", operand := Some(r), operator := None)
      else
        this
    }

    /** `Calculator::handle_operator`. */
    function HandleOperator(lib: FloatLib, op: Operator): CalcState {
      var s := if operand.None? then this.(operand := lib.parse(input)) else Calculate(lib);
      s.(input := "", operator := Some(op))
    }

    /** `Calculator::apply_trig_function`. */
    function ApplyTrigFunction(lib: FloatLib, trigFn: TrigFunction): CalcState {
      match lib.parse(input)
      case None => this
      case Some(angle) =>
        var radians := if angleMode == Degrees then lib.toRadians(angle) else angle;
        this.(result := lib.show(Trig(lib, trigFn, radians)), input := "")
    }

    /** `Calculator::apply_log_function`. */
    function ApplyLogFunction(lib: FloatLib, logFn: LogFunction): CalcState {
      match lib.parse(input)
      case None => this
      case Some(x) =>
        var r := match logFn
          case Log10 => lib.log10(x)
          case Ln => lib.ln(x);
        this.(result := lib.show(r), input := "")
    }

    /** `Calculator::prepare_exponentiation`: the input becomes the base of a pending power. */
    function PrepareExponentiation(lib: FloatLib): CalcState {
      match lib.parse(input)
      case None => this
      case Some(base) =>
        this.(operand := Some(base), operator := Some(Operator.Exponentiate), input := "")
    }

    /** `Calculator::apply_root(degree)`: the input raised to 1/degree. */
    function ApplyRoot(lib: FloatLib, degree: F64): CalcState {
      match lib.parse(input)
      case None => this
      case Some(x) => this.(result := lib.show(lib.powf(x, lib.div(ONE, degree))), input := "")
    }

    /** `Calculator::toggle_angle_mode`. */
    function ToggleAngleMode(): CalcState {
      this.(angleMode := Flip(angleMode))
    }

    /** A unary function of the parsed input, shown in `result`; a no-op when the
        input does not parse. */
    function Unary(lib: FloatLib, f: F64 -> F64): CalcState {
      match lib.parse(input)
      case None => this
      case Some(x) => this.(result := lib.show(f(x)), input := "")
    }

    /** `Calculator::update`. */
    function Step(lib: FloatLib, m: Message): CalcState {
      match m
      case Input(v) => this.(input := input + v)
      case Clear => Clear()
      case Calculate => Calculate(lib)
      case OperatorPressed(op) => HandleOperator(lib, op)
      case TrigFunctionPressed(f) => ApplyTrigFunction(lib, f)
      case LogFunctionPressed(f) => ApplyLogFunction(lib, f)
      case Exponentiate => PrepareExponentiation(lib)
      case SquareRoot => ApplyRoot(lib, TWO)
      case ToggleAngleMode => ToggleAngleMode()
      case Factorial =>
        (match Decimal.ParseU64(input)
         case None => this
         case Some(n) => this.(result := Decimal.NatToString(Fact.FactorialU64(n)), input := ""))
      case Square => Unary(lib, x => lib.mul(x, x))
      case Cube => Unary(lib, x => lib.mul(lib.mul(x, x), x))
      case Reciprocal =>
        (match lib.parse(input)
         case None => this
         case Some(x) =>
           this.(result := if IsZero(x) then "Error" else lib.show(lib.div(ONE, x)), input := ""))
      case RootY =>
        if operand.Some? && lib.parse(input).Some? then
          var r := lib.powf(operand.value, lib.div(ONE, lib.parse(input).value));
          this.(result := lib.show(r), input := "", operand := None)
        else
          this
      case Exponential => Unary(lib, lib.exp)
      case Euler => this.(result := lib.show(E))
      case EE => this.(input := input + "e")
      case Percentage => Unary(lib, x => lib.div(x, HUNDRED))
    }
  }

  /** `Calculator::new`. */
  function Initial(): CalcState {
    CalcState("", "", None, None, Radians)
  }

  /** The state after a sequence of messages, each handled by `update` in turn. */
  function Run(lib: FloatLib, s: CalcState, ms: seq<Message>): CalcState
    decreases |ms|
  {
    if ms == [] then s else Run(lib, s.Step(lib, ms[0]), ms[1..])
  }

  /** The number of `ToggleAngleMode` messages in `ms`. */
  function ToggleCount(ms: seq<Message>): nat {
    if ms == [] then 0 else (if ms[0].ToggleAngleMode? then 1 else 0) + ToggleCount(ms[1..])
  }

  /** The messages that only ever write `result` and `input`. */
  predicate IsUnary(m: Message) {
    m.TrigFunctionPressed? || m.LogFunctionPressed? || m.SquareRoot? || m.Factorial? ||
    m.Square? || m.Cube? || m.Reciprocal? || m.Exponential? || m.Percentage?
  }

  /** Whether the input parses as the message that consumes it needs: as a `u64` for
      `Factorial`, as an `f64` for every other unary message. */
  predicate InputParsesFor(lib: FloatLib, s: CalcState, m: Message) {
    if m.Factorial? then Decimal.ParseU64(s.input).Some? else lib.parse(s.input).Some?
  }

  /** The calculator, its fields updated in place by `update` and its helpers. */
  class Calculator {
    const lib: FloatLib
    var input: string
    var result: string
    var operator: Option<Operator>
    var operand: Option<F64>
    var angleMode: AngleMode

    function State(): CalcState
      reads this
    {
      CalcState(input, result, operator, operand, angleMode)
    }

    constructor (lib: FloatLib)
      ensures this.lib == lib && State() == Initial()
    {
      this.lib := lib;
      input := "";
      result := "";
      operator := None;
      operand := None;
      angleMode := Radians;
    }

    method Clear()
      modifies this
      ensures State() == old(State()).Clear()
    {
      input := "";
      result := "";
      operand := None;
      operator := None;
    }

    method Calculate()
      modifies this
      ensures State() == old(State()).Calculate(lib)
    {
      if operator.Some? && operand.Some? {
        var parsed := lib.parse(input);
        if parsed.Some? {
          var r := ApplyOperator(lib, operator.value, operand.value, parsed.value);
          result := lib.show(r);
          input := "";
          operand := Some(r);
          operator := None;
        }
      }
    }

    method HandleOperator(op: Operator)
      modifies this
      ensures State() == old(State()).HandleOperator(lib, op)
    {
      if operand.None? {
        operand := lib.parse(input);
      } else {
        Calculate();
      }
      input := "";
      operator := Some(op);
    }

    method ApplyTrigFunction(trigFn: TrigFunction)
      modifies this
      ensures State() == old(State()).ApplyTrigFunction(lib, trigFn)
    {
      var parsed := lib.parse(input);
      if parsed.Some? {
        var angle := parsed.value;
        var radians := if angleMode == Degrees then lib.toRadians(angle) else angle;
        var r;
        match trigFn {
          case Sine => r := lib.sin(radians);
          case Cosine => r := lib.cos(radians);
          case Tangent => r := lib.tan(radians);
        }
        result := lib.show(r);
        input := "";
      }
    }

    method ApplyLogFunction(logFn: LogFunction)
      modifies this
      ensures State() == old(State()).ApplyLogFunction(lib, logFn)
    {
      var parsed := lib.parse(input);
      if parsed.Some? {
        var r := if logFn == Log10 then lib.log10(parsed.value) else lib.ln(parsed.value);
        result := lib.show(r);
        input := "";
      }
    }

    method PrepareExponentiation()
      modifies this
      ensures State() == old(State()).PrepareExponentiation(lib)
    {
      var parsed := lib.parse(input);
      if parsed.Some? {
        operand := Some(parsed.value);
        operator := Some(Operator.Exponentiate);
        input := "";
      }
    }

    method ApplyRoot(degree: F64)
      modifies this
      ensures State() == old(State()).ApplyRoot(lib, degree)
    {
      var parsed := lib.parse(input);
      if parsed.Some? {
        result := lib.show(lib.powf(parsed.value, lib.div(ONE, degree)));
        input := "";
      }
    }

    method ToggleAngleMode()
      modifies this
      ensures State() == old(State()).ToggleAngleMode()
    {
      angleMode := if angleMode == Degrees then Radians else Degrees;
    }

    method Update(m: Message)
      modifies this
      ensures State() == old(State()).Step(lib, m)
    {
      match m {
        case Input(v) => input := input + v;
        case Clear => Clear();
        case Calculate => Calculate();
        case OperatorPressed(op) => HandleOperator(op);
        case TrigFunctionPressed(f) => ApplyTrigFunction(f);
        case LogFunctionPressed(f) => ApplyLogFunction(f);
        case Exponentiate => PrepareExponentiation();
        case SquareRoot => ApplyRoot(TWO);
        case ToggleAngleMode => ToggleAngleMode();
        case Factorial =>
          var parsed := Decimal.ParseU64(input);
          if parsed.Some? {
            result := Decimal.NatToString(Fact.FactorialU64(parsed.value));
            input := "";
          }
        case Square =>
          var parsed := lib.parse(input);
          if parsed.Some? {
            var x := parsed.value;
            result := lib.show(lib.mul(x, x));
            input := "";
          }
        case Cube =>
          var parsed := lib.parse(input);
          if parsed.Some? {
            var x := parsed.value;
            result := lib.show(lib.mul(lib.mul(x, x), x));
            input := "";
          }
        case Reciprocal =>
          var parsed := lib.parse(input);
          if parsed.Some? {
            if !IsZero(parsed.value) {
              result := lib.show(lib.div(ONE, parsed.value));
            } else {
              result := "Error";
            }
            input := "";
          }
        case RootY =>
          var parsed := lib.parse(input);
          if operand.Some? && parsed.Some? {
            result := lib.show(lib.powf(operand.value, lib.div(ONE, parsed.value)));
            input := "";
            operand := None;
          }
        case Exponential =>
          var parsed := lib.parse(input);
          if parsed.Some? {
            var x := parsed.value;
            result := lib.show(lib.exp(x));
            input := "";
          }
        case Euler => result := lib.show(E);
        case EE => input := input + "e";
        case Percentage =>
          var parsed := lib.parse(input);
          if parsed.Some? {
            var x := parsed.value;
            result := lib.show(lib.div(x, HUNDRED));
            input := "";
          }
      }
    }
  }

  // ---------------------------------------------------------------------------
  // What `update` promises, message by message

  /** `Input(v)` appends `v` verbatim to the input and changes nothing else. */
  lemma InputAppends(lib: FloatLib, s: CalcState, v: string)
    ensures s.Step(lib, Input(v)) == s.(input := s.input + v)
  {
  }

  /** Typing "5" then "3" leaves "53" in the input. */
  lemma InputExample(lib: FloatLib)
    ensures Run(lib, Initial(), [Input("5"), Input("3")]).input == "53"
  {
  }

  /** `Clear` empties the input, the result and both pending fields, and keeps the
      angle mode: the state is the initial one but for the mode. */
  lemma ClearResets(lib: FloatLib, s: CalcState)
    ensures s.Step(lib, Clear).input == "" && s.Step(lib, Clear).result == ""
    ensures s.Step(lib, Clear).operand == None && s.Step(lib, Clear).operator == None
    ensures s.Step(lib, Clear) == Initial().(angleMode := s.angleMode)
  {
  }

  lemma ClearIdempotent(lib: FloatLib, s: CalcState)
    ensures s.Step(lib, Clear).Step(lib, Clear) == s.Step(lib, Clear)
  {
  }

  /** The mode starts as radians; a toggle changes only the mode, and two toggles
      restore it. */
  lemma ToggleAngleModeFlips(lib: FloatLib, s: CalcState)
    ensures Initial().angleMode == Radians
    ensures s.Step(lib, ToggleAngleMode).angleMode != s.angleMode
    ensures s.Step(lib, ToggleAngleMode) == s.(angleMode := s.Step(lib, ToggleAngleMode).angleMode)
    ensures s.Step(lib, ToggleAngleMode).Step(lib, ToggleAngleMode) == s
  {
  }

  /** `Calculate` is a no-op exactly when an operator or an operand is missing or the
      input does not parse. */
  lemma CalculateNoOpIff(lib: FloatLib, s: CalcState)
    ensures s.Step(lib, Calculate) == s
        <==> !(s.operator.Some? && s.operand.Some? && lib.parse(s.input).Some?)
  {
  }

  /** On success the result is shown, the input emptied, the result kept as the next
      operand and the operator consumed. */
  lemma CalculateSucceeds(lib: FloatLib, s: CalcState, op: Operator, a: F64, x: F64)
    requires s.operator == Some(op) && s.operand == Some(a) && lib.parse(s.input) == Some(x)
    ensures var r := ApplyOperator(lib, op, a, x);
            s.Step(lib, Calculate)
            == CalcState("", lib.show(r), None, Some(r), s.angleMode)
  {
  }

  /** Typing "abc" and pressing equals leaves the result empty. */
  lemma InvalidInputExample(lib: FloatLib)
    ensures Run(lib, Initial(), [Input("abc"), Calculate]).result == ""
  {
  }

  /** An operator press always ends with an empty input and that operator pending,
      and never writes the angle mode. */
  lemma OperatorInstalled(lib: FloatLib, s: CalcState, op: Operator)
    ensures s.Step(lib, OperatorPressed(op)).input == ""
    ensures s.Step(lib, OperatorPressed(op)).operator == Some(op)
    ensures s.Step(lib, OperatorPressed(op)).angleMode == s.angleMode
  {
  }

  /** With no operand held, the press captures the parsed input (None when it does not
      parse) and leaves the result alone. */
  lemma OperatorCapturesOperand(lib: FloatLib, s: CalcState, op: Operator)
    requires s.operand.None?
    ensures s.Step(lib, OperatorPressed(op))
         == s.(input := "", operand := lib.parse(s.input), operator := Some(op))
  {
  }

  /** With an operand and an operator held and a parsable input, the press first
      completes the pending operation: `a prev x` becomes the operand. */
  lemma OperatorChains(lib: FloatLib, s: CalcState, op: Operator, prev: Operator, a: F64, x: F64)
    requires s.operand == Some(a) && s.operator == Some(prev) && lib.parse(s.input) == Some(x)
    ensures var r := ApplyOperator(lib, prev, a, x);
            s.Step(lib, OperatorPressed(op))
            == CalcState("", lib.show(r), Some(op), Some(r), s.angleMode)
  {
  }

  /** With an operand held, an operator press that cannot calculate only installs the
      new operator and empties the input. With nothing parsable typed, the last of two
      consecutive operators wins; with no operator pending (the state after "="), a
      number typed since is discarded and the previous result stays the operand. */
  lemma OperatorReplacesWithoutInput(lib: FloatLib, s: CalcState, op: Operator)
    requires s.operand.Some? && (s.operator.None? || lib.parse(s.input).None?)
    ensures s.Step(lib, OperatorPressed(op)) == s.(input := "", operator := Some(op))
  {
  }

  /** "5 + 3 =" then "2 × 4 =" shows (5 + 3) × 4: the 2 typed after "=" is dropped by
      the operator press, which keeps 5 + 3 as the operand. */
  lemma InputAfterEqualsDiscarded(lib: FloatLib, five: F64, three: F64, two: F64, four: F64)
    requires lib.parse("5") == Some(five) && lib.parse("3") == Some(three)
    requires lib.parse("2") == Some(two) && lib.parse("4") == Some(four)
    ensures var r := Run(lib, Initial(), [Input("5"), OperatorPressed(Add), Input("3"), Calculate,
                                          Input("2"), OperatorPressed(Multiply), Input("4"), Calculate]);
            r.result == lib.show(lib.mul(lib.add(five, three), four))
  {
    var s1 := Initial().Step(lib, Input("5"));
    assert s1.input == "5";
    var s2 := s1.Step(lib, OperatorPressed(Add));
    var s3 := s2.Step(lib, Input("3"));
    assert s3.input == "3";
    var s4 := s3.Step(lib, Calculate);
    assert s4.operand == Some(lib.add(five, three)) && s4.operator == None && s4.input == "";
    var s5 := s4.Step(lib, Input("2"));
    assert s5.input == "2";
    var s6 := s5.Step(lib, OperatorPressed(Multiply));
    assert s6.operand == Some(lib.add(five, three)) && s6.input == "";
    var s7 := s6.Step(lib, Input("4"));
    assert s7.input == "4";
    assert Run(lib, Initial(), [Input("5"), OperatorPressed(Add), Input("3"), Calculate,
                                Input("2"), OperatorPressed(Multiply), Input("4"), Calculate])
        == s7.Step(lib, Calculate);
  }

  /** "5 + 3 =" shows 5 + 3. */
  lemma AdditionExample(lib: FloatLib, five: F64, three: F64)
    requires lib.parse("5") == Some(five) && lib.parse("3") == Some(three)
    ensures Run(lib, Initial(), [Input("5"), OperatorPressed(Add), Input("3"), Calculate]).result
         == lib.show(lib.add(five, three))
  {
    var s1 := Initial().Step(lib, Input("5"));
    assert s1.input == "5";
    var s2 := s1.Step(lib, OperatorPressed(Add));
    var s3 := s2.Step(lib, Input("3"));
    assert s3.input == "3";
    assert Run(lib, Initial(), [Input("5"), OperatorPressed(Add), Input("3"), Calculate])
        == s3.Step(lib, Calculate);
  }

  /** "5 + 3 × 2 =" is evaluated left to right, as (5 + 3) × 2. */
  lemma NoPrecedence(lib: FloatLib, five: F64, three: F64, two: F64)
    requires lib.parse("5") == Some(five) && lib.parse("3") == Some(three)
    requires lib.parse("2") == Some(two)
    ensures var r := Run(lib, Initial(), [Input("5"), OperatorPressed(Add), Input("3"),
                                          OperatorPressed(Multiply), Input("2"), Calculate]);
            r.result == lib.show(lib.mul(lib.add(five, three), two))
            && r.operand == Some(lib.mul(lib.add(five, three), two)) && r.operator == None
  {
    var s1 := Initial().Step(lib, Input("5"));
    assert s1.input == "5";
    var s2 := s1.Step(lib, OperatorPressed(Add));
    var s3 := s2.Step(lib, Input("3"));
    assert s3.input == "3";
    var s4 := s3.Step(lib, OperatorPressed(Multiply));
    assert s4.operand == Some(lib.add(five, three));
    var s5 := s4.Step(lib, Input("2"));
    assert s5.input == "2";
    assert Run(lib, Initial(), [Input("5"), OperatorPressed(Add), Input("3"),
                                OperatorPressed(Multiply), Input("2"), Calculate])
        == s5.Step(lib, Calculate);
  }

  /** Division by zero is not special-cased: "1 ÷ 0 =" shows whatever `to_string`
      makes of 1.0 / 0.0, and the quotient becomes the operand. */
  lemma DivisionByZeroIsPlainDivision(lib: FloatLib, one: F64, zero: F64)
    requires lib.parse("1") == Some(one) && lib.parse("0") == Some(zero)
    ensures var r := Run(lib, Initial(), [Input("1"), OperatorPressed(Divide), Input("0"), Calculate]);
            r.result == lib.show(lib.div(one, zero)) && r.input == ""
            && r.operand == Some(lib.div(one, zero))
  {
    var s1 := Initial().Step(lib, Input("1"));
    assert s1.input == "1";
    var s2 := s1.Step(lib, OperatorPressed(Divide));
    var s3 := s2.Step(lib, Input("0"));
    assert s3.input == "0";
    assert Run(lib, Initial(), [Input("1"), OperatorPressed(Divide), Input("0"), Calculate])
        == s3.Step(lib, Calculate);
  }

  /** Operand and operator are not kept as a pair: an operator pressed on an empty
      input is pending with no operand, and a completed calculation holds an operand
      with no operator. */
  lemma PendingFieldsUnpaired(lib: FloatLib, five: F64, three: F64)
    requires lib.parse("") == None
    requires lib.parse("5") == Some(five) && lib.parse("3") == Some(three)
    ensures var r := Run(lib, Initial(), [OperatorPressed(Add)]);
            r.operator == Some(Add) && r.operand == None
    ensures var r := Run(lib, Initial(), [Input("5"), OperatorPressed(Add), Input("3"), Calculate]);
            r.operator == None && r.operand.Some?
  {
    var s1 := Initial().Step(lib, Input("5"));
    assert s1.input == "5";
    var s2 := s1.Step(lib, OperatorPressed(Add));
    var s3 := s2.Step(lib, Input("3"));
    assert s3.input == "3";
    assert Run(lib, Initial(), [Input("5"), OperatorPressed(Add), Input("3"), Calculate])
        == s3.Step(lib, Calculate);
  }

  /** `Factorial` is a no-op unless the input parses as a `u64` n; then the result is
      the decimal text of n! in `u64` and the input is emptied. */
  lemma FactorialMessage(lib: FloatLib, s: CalcState)
    ensures Decimal.ParseU64(s.input).None? ==> s.Step(lib, Factorial) == s
    ensures Decimal.ParseU64(s.input).Some? ==>
              s.Step(lib, Factorial)
              == s.(result := Decimal.NatToString(Fact.FactorialU64(Decimal.ParseU64(s.input).value)),
                    input := "")
  {
  }

  /** "5" then n! shows "120". */
  lemma FactorialMessageExample(lib: FloatLib, s: CalcState)
    requires s.input == "5"
    ensures s.Step(lib, Factorial).result == "120" && s.Step(lib, Factorial).input == ""
  {
    assert Decimal.ParseU64("5") == Some(5);
    Fact.FactorialExamples();
    assert Fact.FactorialU64(5) == 120;
    assert Decimal.NatToString(120) == "120";
  }

  /** A sign, a decimal point or any other non-digit (except a leading '+') makes
      `Factorial` a no-op: negative and fractional inputs are ignored. */
  lemma FactorialIgnoresNonInteger(lib: FloatLib, s: CalcState, i: nat)
    requires i < |s.input| && !Decimal.IsDigit(s.input[i]) && !(i == 0 && s.input[0] == '+')
    ensures s.Step(lib, Factorial) == s
  {
    Decimal.ParseU64RejectsNonDigit(s.input, i);
  }

  /** The reciprocal of a parsed zero (either sign) shows "Error" and empties the input. */
  lemma ReciprocalOfZero(lib: FloatLib, s: CalcState, x: F64)
    requires lib.parse(s.input) == Some(x) && IsZero(x)
    ensures s.Step(lib, Reciprocal) == s.(result := "Error", input := "")
  {
  }

  /** The unary messages write only `result` and `input`: they are no-ops when the
      input does not parse, and otherwise empty the input. */
  lemma UnaryFrame(lib: FloatLib, s: CalcState, m: Message)
    requires IsUnary(m)
    ensures var r := s.Step(lib, m);
            r.operand == s.operand && r.operator == s.operator && r.angleMode == s.angleMode
    ensures !InputParsesFor(lib, s, m) ==> s.Step(lib, m) == s
    ensures InputParsesFor(lib, s, m) ==>
              s.Step(lib, m) == s.(input := "", result := s.Step(lib, m).result)
  {
  }

  /** A trig function sees the angle converted to radians exactly in degrees mode. */
  lemma TrigUsesAngleMode(lib: FloatLib, s: CalcState, f: TrigFunction, x: F64)
    requires lib.parse(s.input) == Some(x)
    ensures s.Step(lib, TrigFunctionPressed(f)).result
         == lib.show(Trig(lib, f, if s.angleMode == Degrees then lib.toRadians(x) else x))
  {
  }

  /** `Euler` writes only the result; `EE` appends "e" to the input and nothing else. */
  lemma EulerAndEE(lib: FloatLib, s: CalcState)
    ensures s.Step(lib, Euler) == s.(result := lib.show(E))
    ensures s.Step(lib, EE) == s.(input := s.input + "e")
  {
  }

  /** `Exponentiate` takes the parsed input as the base of a pending power. */
  lemma PrepareExponentiationSetsBase(lib: FloatLib, s: CalcState)
    ensures lib.parse(s.input).None? ==> s.Step(lib, Message.Exponentiate) == s
    ensures lib.parse(s.input).Some? ==>
              s.Step(lib, Message.Exponentiate)
              == s.(operand := lib.parse(s.input), operator := Some(Operator.Exponentiate), input := "")
  {
  }

  /** "b", x^y, "y", = shows b to the power y. */
  lemma PowerExample(lib: FloatLib, s: CalcState, b: F64, y: string, yv: F64)
    requires lib.parse(s.input) == Some(b) && lib.parse(y) == Some(yv)
    ensures Run(lib, s, [Message.Exponentiate, Input(y), Calculate]).result
         == lib.show(lib.powf(b, yv))
  {
    var s1 := s.Step(lib, Message.Exponentiate);
    var s2 := s1.Step(lib, Input(y));
    assert s2.input == y;
    var ms := [Message.Exponentiate, Input(y), Calculate];
    assert Run(lib, s, ms) == Run(lib, s1, ms[1..]);
    assert Run(lib, s1, ms[1..]) == Run(lib, s2, ms[2..]);
    assert Run(lib, s2, ms[2..]) == Run(lib, s2.Step(lib, Calculate), []);
  }

  /** `RootY` needs a held operand and a parsable input; it then clears the operand but
      leaves the operator pending. */
  lemma RootYNeedsOperand(lib: FloatLib, s: CalcState)
    ensures (s.operand.None? || lib.parse(s.input).None?) ==> s.Step(lib, RootY) == s
    ensures s.operand.Some? && lib.parse(s.input).Some? ==>
              var r := s.Step(lib, RootY);
              r.operand == None && r.operator == s.operator && r.input == ""
              && r.result == lib.show(lib.powf(s.operand.value, lib.div(ONE, lib.parse(s.input).value)))
  {
  }

  /** `SquareRoot` is the root of degree 2.0. */
  lemma SquareRootIsRootOfTwo(lib: FloatLib, s: CalcState, x: F64)
    requires lib.parse(s.input) == Some(x)
    ensures s.Step(lib, SquareRoot).result == lib.show(lib.powf(x, lib.div(ONE, TWO)))
  {
  }

  // ---------------------------------------------------------------------------
  // Which fields each message may write, over all messages

  lemma AngleModeOnlyToggled(lib: FloatLib, s: CalcState, m: Message)
    ensures s.Step(lib, m).angleMode
         == if m.ToggleAngleMode? then Flip(s.angleMode) else s.angleMode
  {
  }

  lemma PendingFieldsWriters(lib: FloatLib, s: CalcState, m: Message)
    requires !(m.Clear? || m.Calculate? || m.OperatorPressed? || m.Exponentiate? || m.RootY?)
    ensures s.Step(lib, m).operand == s.operand && s.Step(lib, m).operator == s.operator
  {
  }

  /** The input only grows by typing (`Input`, `EE`); every other message either
      leaves it alone or empties it. */
  lemma InputDiscipline(lib: FloatLib, s: CalcState, m: Message)
    ensures m.Input? ==> s.Step(lib, m).input == s.input + m.value
    ensures m.EE? ==> s.Step(lib, m).input == s.input + "e"
    ensures !m.Input? && !m.EE? ==> s.Step(lib, m).input in {"", s.input}
  {
  }

  // ---------------------------------------------------------------------------
  // Sequences of messages

  lemma {:induction false} RunAppend(lib: FloatLib, s: CalcState, ms: seq<Message>, m: Message)
    ensures Run(lib, s, ms + [m]) == Run(lib, s, ms).Step(lib, m)
    decreases |ms|
  {
    if ms != [] {
      assert (ms + [m])[1..] == ms[1..] + [m];
      RunAppend(lib, s.Step(lib, ms[0]), ms[1..], m);
    }
  }

  /** After any sequence of messages the angle mode is the starting one flipped once
      per `ToggleAngleMode` in it. */
  lemma {:induction false} AngleModeParity(lib: FloatLib, s: CalcState, ms: seq<Message>)
    ensures Run(lib, s, ms).angleMode
         == if ToggleCount(ms) % 2 == 0 then s.angleMode else Flip(s.angleMode)
    decreases |ms|
  {
    if ms != [] {
      AngleModeOnlyToggled(lib, s, ms[0]);
      AngleModeParity(lib, s.Step(lib, ms[0]), ms[1..]);
    }
  }

  /** Whatever was typed or pressed, a final `Clear` returns the calculator to its
      initial state, provided the mode was toggled an even number of times. */
  lemma ClearRestoresInitial(lib: FloatLib, ms: seq<Message>)
    requires ToggleCount(ms) % 2 == 0
    ensures Run(lib, Initial(), ms + [Clear]) == Initial()
  {
    RunAppend(lib, Initial(), ms, Clear);
    AngleModeParity(lib, Initial(), ms);
  }
}
