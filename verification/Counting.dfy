/** Adding up a weight over the threads of a protocol. */
module Counting {

  ghost function Total<T(!new)>(threads: map<nat, T>, weight: T -> nat): nat {
    if threads == map[] then 0
    else
      var t :| t in threads;
      weight(threads[t]) + Total(threads - {t}, weight)
  }

  lemma {:induction false} TotalWithout<T(!new)>(threads: map<nat, T>, weight: T -> nat, t: nat)
    requires t in threads
    ensures Total(threads, weight) == weight(threads[t]) + Total(threads - {t}, weight)
  {
    var first :| first in threads
      && Total(threads, weight) == weight(threads[first]) + Total(threads - {first}, weight);
    if first != t {
      TotalWithout(threads - {first}, weight, t);
      TotalWithout(threads - {t}, weight, first);
      assert threads - {first} - {t} == threads - {t} - {first};
    }
  }

  /** Moving one thread changes the total by that thread alone. */
  lemma TotalAfterMove<T(!new)>(threads: map<nat, T>, weight: T -> nat, t: nat, next: T)
    ensures Total(threads[t := next], weight)
         == Total(threads, weight) - (if t in threads then weight(threads[t]) else 0) + weight(next)
  {
    TotalWithout(threads[t := next], weight, t);
    assert threads[t := next] - {t} == threads - {t};
    if t in threads {
      TotalWithout(threads, weight, t);
    } else {
      assert threads - {t} == threads;
    }
  }

  /** The total is 0 exactly when every thread weighs nothing. */
  lemma {:induction false} TotalZero<T(!new)>(threads: map<nat, T>, weight: T -> nat)
    ensures Total(threads, weight) == 0 <==> forall t <- threads :: weight(threads[t]) == 0
  {
    if threads != map[] {
      var t :| t in threads;
      TotalWithout(threads, weight, t);
      TotalZero(threads - {t}, weight);
      assert forall u :: u in threads <==> u == t || u in threads - {t};
    }
  }
}
