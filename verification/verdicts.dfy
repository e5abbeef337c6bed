/**
 The three-valued verdict a selection sub-expression yields under one variable
 binding. `Invalid` is the "could not be decided" state (for instance a field
 that is absent from the document).

 The connectives are Result's own `&&`, `||` and `!`, which are defined outside
 the combination engine; they are given here the three-valued table in which
 False dominates a conjunction and True dominates a disjunction.
 */
module Verdicts {

  datatype Result = True | False | Invalid
  {
    /** Conjunction: True only when both are True, False as soon as one is False. */
    function And(other: Result): Result
    {
      if this == False || other == False then False
      else if this == True && other == True then True
      else Invalid
    }

    /** Disjunction: True as soon as one is True, False only when both are False. */
    function Or(other: Result): Result
    {
      if this == True || other == True then True
      else if this == False && other == False then False
      else Invalid
    }

    /** Negation swaps True and False and keeps Invalid. */
    function Not(): Result
    {
      match this
      case True => False
      case False => True
      case Invalid => Invalid
    }
  }
}
