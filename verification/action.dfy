/** `Action` (`tool/action.rs`): how a tool's value is combined with a
    density already stored at a grid corner. */
module Actions {
  datatype Action = Remove | Place

  /** `Action::apply_value`, returning the new density instead of writing it
      through `&mut f32`: Place keeps the larger of the density and the tool
      value, Remove the smaller of the density and the negated tool value. */
  function ApplyValue(action: Action, point: real, val: real): (r: real)
    ensures action == Place ==> r >= point && r >= val && (r == point || r == val)
    ensures action == Remove ==> r <= point && r <= -val && (r == point || r == -val)
  {
    match action
    case Place => if point >= val then point else val
    case Remove => if point <= -val then point else -val
  }

  /** Applying the same action with the same value twice is applying it
      once. */
  lemma ApplyValueIdempotent(action: Action, point: real, val: real)
    ensures ApplyValue(action, ApplyValue(action, point, val), val) == ApplyValue(action, point, val)
  {
  }

  /** Place never lowers a density and Remove never raises one; both are
      monotone in the stored density. */
  lemma ApplyValueMonotone(action: Action, p: real, q: real, val: real)
    requires p <= q
    ensures ApplyValue(action, p, val) <= ApplyValue(action, q, val)
    ensures action == Place ==> ApplyValue(action, p, val) >= p
    ensures action == Remove ==> ApplyValue(action, p, val) <= p
  {
  }

  /** The density is left unchanged exactly when it already dominates the
      tool value (Place) or is already below its negation (Remove). */
  lemma ApplyValueUnchangedIff(action: Action, point: real, val: real)
    ensures ApplyValue(action, point, val) == point <==>
      (action == Place && val <= point) || (action == Remove && point <= -val)
  {
  }

  /** Removing with a tool value of 0 does not leave positive densities
      alone: it caps them at 0. */
  lemma RemoveZeroCaps(point: real)
    ensures ApplyValue(Remove, point, 0.0) == (if point <= 0.0 then point else 0.0)
    ensures point > 0.0 ==> ApplyValue(Remove, point, 0.0) != point
  {
  }
}
