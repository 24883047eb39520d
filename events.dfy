/** The events the older event loop handles (src/core/events.rs). As for
    the commands, closures are opaque numbers, equality is written by
    hand, and user input equals nothing, itself included. */
module PagerEvents {
  import opened LineNumbering
  import I = Inputs
  import LP = LegacyPager

  datatype Event =
    | AppendData(text: string)
    | SetData(text: string)
    | UserInput(input: I.InputEvent)
    | SetPrompt(text: string)
    | SendMessage(text: string)
    | SetLineNumbers(lineNumbers: LineNumbers)
    | SetExitStrategy(strategy: LP.ExitStrategy)
    | SetInputClassifier(classifier: nat)
    | AddExitCallback(callback: nat)
    | SetRunNoOverflow(on: bool)
    | IncrementalSearchCondition(condition: nat)

  /** `PartialEq::eq`, its arms in order. */
  predicate Eq(a: Event, b: Event)
  {
    match (a, b)
    case (SetData(d1), SetData(d2)) => d1 == d2
    case (AppendData(d1), AppendData(d2)) => d1 == d2
    case (SetPrompt(d1), SetPrompt(d2)) => d1 == d2
    case (SendMessage(d1), SendMessage(d2)) => d1 == d2
    case (SetLineNumbers(d1), SetLineNumbers(d2)) => d1 == d2
    case (SetExitStrategy(d1), SetExitStrategy(d2)) => d1 == d2
    case (SetRunNoOverflow(d1), SetRunNoOverflow(d2)) => d1 == d2
    case (SetInputClassifier(_), SetInputClassifier(_)) => true
    case (AddExitCallback(_), AddExitCallback(_)) => true
    case (IncrementalSearchCondition(_), IncrementalSearchCondition(_)) => true
    case _ => false
  }

  /** The events compared by their payload: every one but user input and
      the closure-carrying ones. */
  predicate ByPayload(e: Event)
  {
    !e.UserInput? && !e.SetInputClassifier? && !e.AddExitCallback? && !e.IncrementalSearchCondition?
  }

  /** Two events carrying a closure of the same kind. */
  predicate SameClosureKind(a: Event, b: Event)
  {
    (a.SetInputClassifier? && b.SetInputClassifier?)
    || (a.AddExitCallback? && b.AddExitCallback?)
    || (a.IncrementalSearchCondition? && b.IncrementalSearchCondition?)
  }

  /** Equality holds exactly between identical payload-carrying events and
      between closure-carrying events of one kind; user input equals
      nothing, itself included. */
  lemma EqCharacterised(a: Event, b: Event)
    ensures Eq(a, b) <==> (ByPayload(a) && a == b) || SameClosureKind(a, b)
    ensures a.UserInput? || b.UserInput? ==> !Eq(a, b)
    ensures Eq(a, a) <==> !a.UserInput?
  {
  }

  /** Equality is symmetric and transitive. */
  lemma EqPartialEquivalence(a: Event, b: Event, c: Event)
    ensures Eq(a, b) ==> Eq(b, a)
    ensures Eq(a, b) && Eq(b, c) ==> Eq(a, c)
  {
    EqCharacterised(a, b);
    EqCharacterised(b, a);
    EqCharacterised(b, c);
    EqCharacterised(a, c);
  }

  /** `is_exit_event`. */
  predicate IsExitEvent(e: Event)
  {
    e.UserInput? && e.input.Exit?
  }

  /** `is_movement`. */
  predicate IsMovement(e: Event)
  {
    e.UserInput? && e.input.UpdateUpperMark?
  }

  /** `required_immidiate_screen_update`. */
  predicate RequiredImmediateScreenUpdate(e: Event)
  {
    e.SetData? || e.SetPrompt? || e.SendMessage? || e.UserInput?
  }

  /** Exits and movements are user input, so both need the screen updated
      at once; of the other events only new text, a new prompt and a
      message do, and appended text does not. */
  lemma ImmediateUpdates(e: Event, mark: nat, text: string)
    ensures IsExitEvent(e) <==> e == UserInput(I.Exit)
    ensures IsExitEvent(e) ==> !IsMovement(e)
    ensures IsMovement(UserInput(I.UpdateUpperMark(mark)))
    ensures IsExitEvent(e) || IsMovement(e) ==> RequiredImmediateScreenUpdate(e)
    ensures !e.UserInput? ==> (RequiredImmediateScreenUpdate(e) <==> e.SetData? || e.SetPrompt? || e.SendMessage?)
    ensures !RequiredImmediateScreenUpdate(AppendData(text))
  {
  }
}
