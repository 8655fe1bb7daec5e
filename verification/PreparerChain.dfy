/** Two request preparers run one after the other (runtime/thread_runtime.go, `chainRequestPreparers`). */
module PreparerChain {
  /** What one preparer's hooks have been told. */
  class Hooks {
    const commitFails: bool
    var commits: nat
    var rollbacks: nat

    constructor (commitFails: bool)
      ensures this.commitFails == commitFails && commits == rollbacks == 0
    {
      this.commitFails, commits, rollbacks := commitFails, 0, 0;
    }

    ghost predicate Open()
      reads this
    {
      commits == 0 && rollbacks == 0
    }

    ghost predicate Settled()
      reads this
    {
      commits + rollbacks == 1
    }

    method Commit() returns (ok: bool)
      modifies this
      ensures commits == old(commits) + 1 && rollbacks == old(rollbacks) && ok == !commitFails
    {
      commits := commits + 1;
      ok := !commitFails;
    }

    method Rollback()
      modifies this
      ensures rollbacks == old(rollbacks) + 1 && commits == old(commits)
    {
      rollbacks := rollbacks + 1;
    }
  }

  /** The chained preparer's result; its two hooks are the parts'. */
  class Chained {
    const first: Hooks
    const second: Hooks

    constructor (first: Hooks, second: Hooks)
      requires first != second
      ensures this.first == first && this.second == second && Valid()
    {
      this.first, this.second := first, second;
    }

    ghost predicate Valid() {
      first != second
    }

    /** Whatever fails, both parts are settled exactly once; the second commits only if the first did. */
    method Commit() returns (ok: bool)
      requires Valid() && first.Open() && second.Open()
      modifies first, second
      ensures first.Settled() && second.Settled() && first.commits == 1
      ensures ok == (!first.commitFails && !second.commitFails)
      ensures second.commits == 1 <==> !first.commitFails
    {
      ok := first.Commit();
      if !ok {
        second.Rollback();
        return;
      }
      ok := second.Commit();
    }

    method Rollback()
      requires Valid() && first.Open() && second.Open()
      modifies first, second
      ensures first.Settled() && second.Settled() && first.rollbacks == second.rollbacks == 1
    {
      second.Rollback();
      first.Rollback();
    }
  }

  /** Preparing: if the second part fails, the first is rolled back at once. */
  method Prepare(first: Hooks, firstFails: bool, second: Hooks, secondFails: bool) returns (r: Chained?)
    requires first != second && first.Open() && second.Open()
    modifies first
    ensures r != null <==> !firstFails && !secondFails
    ensures r != null ==> r.Valid() && r.first == first && r.second == second && first.Open() && second.Open()
    ensures r == null ==>
            second.Open() && (if firstFails then first.Open() else first.Settled() && first.rollbacks == 1)
  {
    if firstFails {
      return null;
    }
    if secondFails {
      first.Rollback();
      return null;
    }
    r := new Chained(first, second);
  }
}
