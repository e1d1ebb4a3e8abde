/**
 * The handler precedence levels of Solder's exception handling
 * (org.jboss.solder.exception.control.Precedence) and the text the handler
 * synthesiser renders for each of them.
 */
module Precedence {
  import opened Wrappers

  /** Java's `int`: the type of the `precedence` option. */
  newtype int32 = x: int | -0x8000_0000 <= x < 0x8000_0000

  /** The integer constants of the Precedence class. */
  const DEFAULT: int32 := 0
  const LOW: int32 := 50
  const HIGH: int32 := 100
  const FRAMEWORK: int32 := -50
  const BUILT_IN: int32 := -100

  /** The named levels the `switch` over the precedence value knows. */
  datatype Level = BuiltIn | Framework | High | Low
  {
    /** The constant each level stands for. */
    function Value(): int32
    {
      match this
      case BuiltIn => BUILT_IN
      case Framework => FRAMEWORK
      case High => HIGH
      case Low => LOW
    }

    /** The Java expression that names the level in generated code. */
    function ConstantName(): string
    {
      match this
      case BuiltIn => "Precedence.BUILT_IN"
      case Framework => "Precedence.FRAMEWORK"
      case High => "Precedence.HIGH"
      case Low => "Precedence.LOW"
    }
  }

  /** The case of the `switch` a precedence value selects, None when no case matches. */
  function LevelOf(precedence: int32): (r: Option<Level>)
    ensures r.Some? ==> r.value.Value() == precedence
    ensures forall l: Level :: l.Value() == precedence ==> r == Some(l)
  {
    if precedence == BUILT_IN then Some(BuiltIn)
    else if precedence == FRAMEWORK then Some(Framework)
    else if precedence == HIGH then Some(High)
    else if precedence == LOW then Some(Low)
    else None
  }

  /**
   * What the `switch` appends after "precedence = ": the level's name, or
   * nothing at all, since the `switch` has no `default` case.
   */
  function SwitchText(precedence: int32): string
  {
    match LevelOf(precedence)
    case Some(l) => l.ConstantName()
    case None => ""
  }

  /** Different levels have different values and different names. */
  lemma LevelsDistinct(l: Level, m: Level)
    ensures l.Value() == m.Value() <==> l == m
    ensures l.ConstantName() == m.ConstantName() <==> l == m
  {
  }

  /** DEFAULT is none of the named levels. */
  lemma DefaultIsNoLevel(l: Level)
    ensures l.Value() != DEFAULT
    ensures LevelOf(DEFAULT) == None
  {
  }

  /**
   * The rendered name, value by value: the four named constants give their
   * names and every other value gives the empty text.
   */
  lemma SwitchTextCases(precedence: int32)
    ensures SwitchText(precedence) == "Precedence.BUILT_IN" <==> precedence == -100
    ensures SwitchText(precedence) == "Precedence.FRAMEWORK" <==> precedence == -50
    ensures SwitchText(precedence) == "Precedence.HIGH" <==> precedence == 100
    ensures SwitchText(precedence) == "Precedence.LOW" <==> precedence == 50
    ensures SwitchText(precedence) == "" <==> precedence !in {-100, -50, 50, 100}
  {
  }
}
