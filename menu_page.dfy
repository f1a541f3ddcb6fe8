/** The quantity stepper of menu.js and the quantity check `placeOrder` makes
    before it posts an order. */
module MenuPage {
  import opened Errors
  import opened Dto

  /** The value of a quantity field as `parseInt` reads it; None stands for NaN. */
  type Field = Option<int>

  /** The field holds a whole number from 1 to 10. */
  predicate InRange(field: Field) {
    field.Some? && 1 <= field.value <= 10
  }

  /** `parseInt(qtyInput.value) || 1`: NaN and 0 count as 1. */
  function Current(field: Field): (v: int)
    ensures v != 0
    ensures field.Some? && field.value != 0 ==> v == field.value
    ensures InRange(field) ==> v == field.value
  {
    if field.Some? && field.value != 0 then field.value else 1
  }

  function Min(a: int, b: int): int { if a <= b then a else b }
  function Max(a: int, b: int): int { if a >= b then a else b }

  /** `incrementQuantity`: writes the current value plus one when it is below
      10, and otherwise leaves the field as it was. */
  function Increment(field: Field): (r: Field)
    ensures r.Some?
    ensures InRange(field) ==> InRange(r) && r.value == Min(field.value + 1, 10)
    ensures Current(field) >= 10 ==> r == field
    ensures r != field ==> r.value <= 10
  {
    var current := Current(field);
    if current < 10 then Some(current + 1) else field
  }

  /** `decrementQuantity`: writes the current value minus one when it is above
      1, and otherwise leaves the field as it was (a blank field stays blank). */
  function Decrement(field: Field): (r: Field)
    ensures InRange(field) ==> InRange(r) && r.value == Max(field.value - 1, 1)
    ensures Current(field) <= 1 ==> r == field
    ensures r != field ==> r.Some? && r.value >= 1
  {
    var current := Current(field);
    if current > 1 then Some(current - 1) else field
  }

  /** The two buttons beside the field. */
  datatype Step = Plus | Minus

  /** The field after a sequence of presses. */
  function Press(field: Field, steps: seq<Step>): Field
    decreases |steps|
  {
    if |steps| == 0 then field
    else Press(if steps[0] == Plus then Increment(field) else Decrement(field), steps[1..])
  }

  /** The field is rendered holding 1. */
  const INITIAL: Field := Some(1)

  /** Pressing the buttons keeps a field that holds 1 to 10 within 1 to 10. */
  lemma {:induction false} PressStaysInRange(field: Field, steps: seq<Step>)
    requires InRange(field)
    ensures InRange(Press(field, steps))
    decreases |steps|
  {
    if |steps| > 0 {
      PressStaysInRange(if steps[0] == Plus then Increment(field) else Decrement(field), steps[1..]);
    }
  }

  /** From the rendered value, any sequence of presses leaves the field within 1 to 10. */
  lemma ReachableInRange(steps: seq<Step>)
    ensures InRange(Press(INITIAL, steps))
  {
    PressStaysInRange(INITIAL, steps);
  }

  function Repeat(step: Step, n: nat): (r: seq<Step>)
    ensures |r| == n
  {
    if n == 0 then [] else [step] + Repeat(step, n - 1)
  }

  /** n presses of plus add n, capped at 10. */
  lemma {:induction false} PlusesCapAtTen(field: Field, n: nat)
    requires InRange(field)
    ensures Press(field, Repeat(Plus, n)) == Some(Min(field.value + n, 10))
    decreases n
  {
    if n > 0 {
      var steps := Repeat(Plus, n);
      assert steps[0] == Plus && steps[1..] == Repeat(Plus, n - 1);
      PlusesCapAtTen(Increment(field), n - 1);
    }
  }

  /** n presses of minus take n away, stopping at 1. */
  lemma {:induction false} MinusesStopAtOne(field: Field, n: nat)
    requires InRange(field)
    ensures Press(field, Repeat(Minus, n)) == Some(Max(field.value - n, 1))
    decreases n
  {
    if n > 0 {
      var steps := Repeat(Minus, n);
      assert steps[0] == Minus && steps[1..] == Repeat(Minus, n - 1);
      MinusesStopAtOne(Decrement(field), n - 1);
    }
  }

  /** What the order button does: post the quantity, or warn and post nothing. */
  datatype Submission = Send(quantity: int) | Refuse(message: string)

  const QUANTITY_WARNING := "Please select a valid quantity (1-10)"

  /** `placeOrder`'s guard: the quantity it posts, or the warning when the
      current value lies outside 1 to 10. */
  function OrderQuantity(field: Field): (r: Submission)
    ensures r.Send? <==> 1 <= Current(field) <= 10
    ensures r.Send? ==> r.quantity == Current(field)
    ensures r.Refuse? ==> r.message == QUANTITY_WARNING
    ensures InRange(field) ==> r == Send(field.value)
  {
    var quantity := Current(field);
    if quantity < 1 || quantity > 10 then Refuse(QUANTITY_WARNING) else Send(quantity)
  }

  /** Every quantity the page posts passes the request's @Min(1). */
  lemma PostedQuantityValid(field: Field, userId: Option<string>, menuItemId: Option<string>)
    requires IdGiven(userId) && IdGiven(menuItemId)
    requires OrderQuantity(field).Send?
    ensures OrderRequestValid(OrderRequest(userId, menuItemId, OrderQuantity(field).quantity))
  {
  }

  /** Whatever the buttons did, the page posts the field's value. */
  lemma ReachableQuantityPosted(steps: seq<Step>)
    ensures var field := Press(INITIAL, steps); field.Some? && OrderQuantity(field) == Send(field.value)
  {
    ReachableInRange(steps);
  }

  /** One quantity field on the menu page; the buttons overwrite its value in place. */
  class QuantityInput {
    var value: Field

    constructor ()
      ensures value == INITIAL
    {
      value := INITIAL;
    }

    method IncrementQuantity()
      modifies this
      ensures value == Increment(old(value))
    {
      var current := if value.Some? && value.value != 0 then value.value else 1;
      if current < 10 {
        value := Some(current + 1);
      }
    }

    method DecrementQuantity()
      modifies this
      ensures value == Decrement(old(value))
    {
      var current := if value.Some? && value.value != 0 then value.value else 1;
      if current > 1 {
        value := Some(current - 1);
      }
    }
  }
}
