/** The condition stack of a template (src/AST/Condition.php, and the copy
    src/Condition.php the older formatter uses): one entry per open
    `{{if}}`, true while its branch is the one being rendered. */
module Conditions {

  /** `reduce(fn($carry, $value) => $carry && $value, $carry)`: the entries
      folded left to right with AND. */
  function AndFrom(carry: bool, stack: seq<bool>): bool
    decreases |stack|
  {
    if stack == [] then carry else AndFrom(carry && stack[0], stack[1..])
  }

  predicate AllTrue(stack: seq<bool>)
  {
    forall i :: 0 <= i < |stack| ==> stack[i]
  }

  /** The fold is the conjunction of the carry and every entry. */
  lemma {:induction false} AndFromIsConjunction(carry: bool, stack: seq<bool>)
    ensures AndFrom(carry, stack) <==> carry && AllTrue(stack)
    decreases |stack|
  {
    if stack != [] {
      AndFromIsConjunction(carry && stack[0], stack[1..]);
      assert AllTrue(stack) <==> stack[0] && AllTrue(stack[1..]) by {
        if stack[0] && AllTrue(stack[1..]) {
          forall i | 0 <= i < |stack| ensures stack[i] {
            if i > 0 { assert stack[i] == stack[1..][i - 1]; }
          }
        }
      }
    }
  }

  /** isSatisfies: the stack is empty, or the AND of its entries holds. The
      query reads the stack and changes nothing. */
  function IsSatisfies(stack: seq<bool>): (r: bool)
    ensures r <==> AllTrue(stack)
    ensures stack == [] ==> r
  {
    AndFromIsConjunction(true, stack);
    |stack| == 0 || AndFrom(true, stack)
  }

  /** Pushing onto a satisfied stack leaves it satisfied exactly when the new
      entry is true; an unsatisfied stack stays unsatisfied. */
  lemma PushSatisfies(stack: seq<bool>, b: bool)
    ensures IsSatisfies(stack + [b]) <==> IsSatisfies(stack) && b
  {
    var s := stack + [b];
    assert s[|stack|] == b;
    if IsSatisfies(stack) && b {
      forall i | 0 <= i < |s| ensures s[i] {
        if i < |stack| { assert s[i] == stack[i]; }
      }
    }
    if !IsSatisfies(stack) {
      var i :| 0 <= i < |stack| && !stack[i];
      assert s[i] == stack[i];
    }
  }

  /** The state below the top entry is what decides whether the branches of
      the innermost `{{if}}` matter at all. */
  lemma TopDecides(stack: seq<bool>)
    requires |stack| > 0
    ensures IsSatisfies(stack) <==> IsSatisfies(stack[..|stack| - 1]) && stack[|stack| - 1]
  {
    PushSatisfies(stack[..|stack| - 1], stack[|stack| - 1]);
    assert stack[..|stack| - 1] + [stack[|stack| - 1]] == stack;
  }
}
