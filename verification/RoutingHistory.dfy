/** What happened once in a run: the vocabulary in which outcomes and labels are traced to their causes. */
module RoutingHistory {
  import opened RoutingModel

  /** Some action of the run was taken in a state with which it makes `p` true. */
  predicate Once(origin: System, run: seq<Action>, p: (System, Action) -> bool) {
    exists k :: 0 <= k < |run| && p(Exec(origin, run[..k]), run[k])
  }

  lemma OnceGrows(origin: System, run: seq<Action>, p: (System, Action) -> bool)
    requires run != []
    ensures var init, a := run[..|run| - 1], run[|run| - 1];
      Once(origin, run, p) <==> Once(origin, init, p) || p(Exec(origin, init), a)
  {
    hide Exec;
    var init, n := run[..|run| - 1], |run| - 1;
    assert forall k :: 0 <= k <= n ==> init[..k] == run[..k];
    if k :| 0 <= k < n && p(Exec(origin, run[..k]), run[k]) {
      assert p(Exec(origin, init[..k]), init[k]);
    }
    if k :| 0 <= k < n && p(Exec(origin, init[..k]), init[k]) {
      assert p(Exec(origin, run[..k]), run[k]);
    }
  }
}
