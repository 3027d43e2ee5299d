/** The counter class src/AST/Counter.php: a mutable integer the template
    builder uses both for the balance of open conditions and for the next
    automatic argument position. */
module Counters {

  class Counter {
    var counter: int

    constructor()
      ensures counter == 0
    {
      counter := 0;
    }

    method Increment()
      modifies this
      ensures counter == old(counter) + 1
    {
      counter := counter + 1;
    }

    /** May go below zero: an `{{endif}}` without `{{if}}` does. */
    method Decrement()
      modifies this
      ensures counter == old(counter) - 1
    {
      counter := counter - 1;
    }

    method Get() returns (value: int)
      ensures value == counter
    {
      value := counter;
    }
  }
}
