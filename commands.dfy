/** The commands the pager's event loop handles (src/core/commands.rs).
    Input classifiers, exit callbacks and incremental-search conditions
    are closures; a command carrying one holds an opaque number for it.
    Equality is written by hand: payloads are compared where they can be,
    commands carrying closures are equal to any of their own kind, and
    every other pair, a command and itself included, is unequal. */
module Commands {
  import opened LineNumbering
  import I = Inputs
  import LP = LegacyPager

  datatype Command =
    | UserInput(input: I.InputEvent)
    | AppendData(text: string)
    | SetData(text: string)
    | SendMessage(text: string)
    | ShowPrompt(show: bool)
    | SetPrompt(text: string)
    | LineWrapping(on: bool)
    | SetLineNumbers(lineNumbers: LineNumbers)
    | FollowOutput(on: bool)
    | SetExitStrategy(strategy: LP.ExitStrategy)
    | SetInputClassifier(classifier: nat)
    | AddExitCallback(callback: nat)
    | SetRunNoOverflow(on: bool)
    | IncrementalSearchCondition(condition: nat)
    | FormatRedrawPrompt
    | FormatRedrawDisplay

  /** `PartialEq::eq`, its arms in order. */
  predicate Eq(a: Command, b: Command)
  {
    match (a, b)
    case (SetData(d1), SetData(d2)) => d1 == d2
    case (AppendData(d1), AppendData(d2)) => d1 == d2
    case (SetPrompt(d1), SetPrompt(d2)) => d1 == d2
    case (SendMessage(d1), SendMessage(d2)) => d1 == d2
    case (LineWrapping(d1), LineWrapping(d2)) => d1 == d2
    case (SetLineNumbers(d1), SetLineNumbers(d2)) => d1 == d2
    case (ShowPrompt(d1), ShowPrompt(d2)) => d1 == d2
    case (SetExitStrategy(d1), SetExitStrategy(d2)) => d1 == d2
    case (SetRunNoOverflow(d1), SetRunNoOverflow(d2)) => d1 == d2
    case (SetInputClassifier(_), SetInputClassifier(_)) => true
    case (AddExitCallback(_), AddExitCallback(_)) => true
    case (IncrementalSearchCondition(_), IncrementalSearchCondition(_)) => true
    case _ => false
  }

  /** The commands compared by their payload. */
  predicate ByPayload(c: Command)
  {
    c.SetData? || c.AppendData? || c.SetPrompt? || c.SendMessage? || c.LineWrapping?
    || c.SetLineNumbers? || c.ShowPrompt? || c.SetExitStrategy? || c.SetRunNoOverflow?
  }

  /** Two commands carrying a closure of the same kind. */
  predicate SameClosureKind(a: Command, b: Command)
  {
    (a.SetInputClassifier? && b.SetInputClassifier?)
    || (a.AddExitCallback? && b.AddExitCallback?)
    || (a.IncrementalSearchCondition? && b.IncrementalSearchCondition?)
  }

  /** Equality holds exactly between identical payload-carrying commands
      and between closure-carrying commands of one kind. */
  lemma EqCharacterised(a: Command, b: Command)
    ensures Eq(a, b) <==> (ByPayload(a) && a == b) || SameClosureKind(a, b)
  {
  }

  /** Equality is symmetric and transitive, so it is an equivalence on the
      commands equal to themselves. */
  lemma EqPartialEquivalence(a: Command, b: Command, c: Command)
    ensures Eq(a, b) ==> Eq(b, a)
    ensures Eq(a, b) && Eq(b, c) ==> Eq(a, c)
  {
    EqCharacterised(a, b);
    EqCharacterised(b, a);
    EqCharacterised(b, c);
    EqCharacterised(a, c);
  }

  /** A command equals itself exactly when it carries a payload or a
      closure: user input, `FollowOutput` and the two redraw commands are
      unequal to themselves. */
  lemma EqReflexiveExactly(c: Command)
    ensures Eq(c, c) <==> ByPayload(c) || SameClosureKind(c, c)
    ensures !Eq(UserInput(I.Exit), UserInput(I.Exit))
    ensures !Eq(FormatRedrawPrompt, FormatRedrawPrompt) && !Eq(FormatRedrawDisplay, FormatRedrawDisplay)
    ensures !Eq(FollowOutput(true), FollowOutput(true))
  {
    EqCharacterised(c, c);
  }

  /** `is_exit_event`. */
  predicate IsExitEvent(c: Command)
  {
    c.UserInput? && c.input.Exit?
  }

  /** `is_movement`. */
  predicate IsMovement(c: Command)
  {
    c.UserInput? && c.input.UpdateUpperMark?
  }

  /** An exit is no movement, and a movement to any mark is one; since
      both are user input, neither equals any command. */
  lemma ExitAndMovement(c: Command, d: Command, mark: nat)
    ensures IsExitEvent(c) <==> c == UserInput(I.Exit)
    ensures IsExitEvent(c) ==> !IsMovement(c)
    ensures IsMovement(UserInput(I.UpdateUpperMark(mark)))
    ensures IsExitEvent(c) || IsMovement(c) ==> !Eq(c, d) && !Eq(d, c)
  {
  }
}
