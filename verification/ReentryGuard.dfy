/** The per-thread stack of the channels whose Display is running: eight slots in an array, then a
    vector for the rest of the thread's life. */
module ReentryGuards {

  const SMALL_CAPACITY: nat := 8

  predicate Distinct<T(==)>(s: seq<T>) {
    forall i, j :: 0 <= i < j < |s| ==> s[i] != s[j]
  }

  class GuardState<C(0,==)> {
    var depth: nat
    var overflow: bool
    const smallStack: array<C>
    var largeStack: seq<C>

    ghost predicate Valid()
      reads this, smallStack
    {
      && smallStack.Length == SMALL_CAPACITY
      && depth <= SMALL_CAPACITY
      && (!overflow ==> largeStack == [])
      && Distinct(Stack())
    }

    /** The one stack behind both representations. */
    ghost function Stack(): seq<C>
      requires smallStack.Length == SMALL_CAPACITY && depth <= SMALL_CAPACITY
      reads this, smallStack
    {
      if overflow then largeStack else smallStack[..depth]
    }

    constructor ()
      ensures Valid() && Stack() == [] && fresh(smallStack)
    {
      depth, overflow, largeStack := 0, false, [];
      smallStack := new C[SMALL_CAPACITY];
    }

    /** Enters exactly when the channel is not on the stack; a refused entry changes nothing. */
    method Enter(channel: C) returns (entered: bool)
      requires Valid()
      modifies this, smallStack
      ensures Valid()
      ensures entered <==> channel !in old(Stack())
      ensures Stack() == old(Stack()) + if entered then [channel] else []
      ensures old(overflow) ==> overflow
    {
      entered := false;
      if !overflow {
        if depth > 0 && smallStack[depth - 1] == channel {
          return;
        }
        for i := 0 to depth
          invariant channel !in smallStack[..i]
        {
          if smallStack[i] == channel {
            return;
          }
        }
        if depth < SMALL_CAPACITY {
          smallStack[depth] := channel;
          depth := depth + 1;
          return true;
        }
        PromoteToOverflow();
      }
      for i := 0 to |largeStack|
        invariant channel !in largeStack[..i]
      {
        if largeStack[i] == channel {
          return;
        }
      }
      assert largeStack == largeStack[..|largeStack|];
      largeStack := largeStack + [channel];
      entered := true;
    }

    /** Changing the representation keeps the stack. */
    method PromoteToOverflow()
      requires Valid() && !overflow
      modifies this
      ensures Valid() && overflow && Stack() == old(Stack())
    {
      overflow := true;
      for i := 0 to depth
        invariant overflow && depth == old(depth) && largeStack == smallStack[..i]
      {
        largeStack := largeStack + [smallStack[i]];
      }
    }

    /** Undoes the latest entry; a guard that was refused does nothing. */
    method Leave(entered: bool)
      requires Valid() && (entered ==> Stack() != [])
      modifies this
      ensures Valid() && overflow == old(overflow)
      ensures Stack() == if entered then old(Stack()[..|Stack()| - 1]) else old(Stack())
    {
      if !entered {
        return;
      }
      if !overflow {
        depth := depth - 1;
      } else {
        largeStack := largeStack[..|largeStack| - 1];
      }
    }
  }
}
