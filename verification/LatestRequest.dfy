/**
  One component's loads, serialised: a new load aborts the one before, and a token handed out
  tells whether its load is still the latest.

  Valid() ties the two signs of being superseded together for every token ever handed out: its
  request is aborted exactly when the token is no longer current.
*/
module LatestRequest {

  class AbortController {
    var aborted: bool

    constructor ()
      ensures !aborted
    {
      aborted := false;
    }

    method Abort()
      modifies this
      ensures aborted
    {
      aborted := true;
    }
  }

  datatype Run = Run(controller: AbortController, mine: nat)

  /** Tokens carry rising numbers up to the generation. */
  ghost predicate Ordered(runs: seq<Run>, generation: nat) {
    (forall i :: 0 <= i < |runs| ==> runs[i].mine <= generation) &&
    forall i, j :: 0 <= i < j < |runs| ==> runs[i].mine < runs[j].mine
  }

  lemma OrderedLater(runs: seq<Run>, generation: nat)
    requires Ordered(runs, generation)
    ensures Ordered(runs, generation + 1) && forall i :: 0 <= i < |runs| ==> runs[i].mine != generation + 1
  {
  }

  lemma OrderedMore(runs: seq<Run>, generation: nat, run: Run)
    requires Ordered(runs, generation) && run.mine == generation + 1
    ensures Ordered(runs + [run], generation + 1)
  {
  }

  class Requests {
    var controller: AbortController?
    var generation: nat
    /** Every token handed out, in order. */
    ghost var runs: seq<Run>

    ghost function Controllers(): set<object>
      reads this
    {
      set r | r in runs :: r.controller
    }

    predicate Current(run: Run)
      reads this
    {
      generation == run.mine
    }

    ghost predicate Valid()
      reads this, Controllers()
    {
      Ordered(runs, generation) &&
      (forall i :: 0 <= i < |runs| ==> (runs[i].controller.aborted <==> !Current(runs[i]))) &&
      controller == if runs != [] && Current(runs[|runs| - 1]) then runs[|runs| - 1].controller else null
    }

    constructor ()
      ensures Valid() && runs == []
    {
      controller, generation, runs := null, 0, [];
    }

    /** Gives up the load under way: no token is current, every request is aborted. */
    method Abort()
      requires Valid()
      modifies this, controller
      ensures Valid() && runs == old(runs)
      ensures forall r :: r in runs ==> !Current(r) && r.controller.aborted
    {
      hide Ordered;
      OrderedLater(runs, generation);
      generation := generation + 1;
      if controller != null {
        controller.Abort();
      }
      controller := null;
    }

    /** Starts a load: its token is the one current, every earlier request is aborted. */
    method Begin() returns (run: Run)
      requires Valid()
      modifies this, controller
      ensures Valid() && runs == old(runs) + [run]
      ensures fresh(run.controller) && Current(run) && !run.controller.aborted
      ensures forall r :: r in old(runs) ==> !Current(r) && r.controller.aborted
    {
      hide Ordered;
      if controller != null {
        controller.Abort();
      }
      var next := new AbortController();
      controller := next;
      run := Run(next, generation + 1);
      OrderedLater(runs, generation);
      OrderedMore(runs, generation, run);
      generation := generation + 1;
      runs := runs + [run];
    }
  }

  /** At most one token is current. */
  lemma OneCurrent(requests: Requests, a: Run, b: Run)
    requires requests.Valid() && a in requests.runs && b in requests.runs && requests.Current(a) && requests.Current(b)
    ensures a == b
  {
    var i :| 0 <= i < |requests.runs| && requests.runs[i] == a;
    var j :| 0 <= j < |requests.runs| && requests.runs[j] == b;
  }
}
