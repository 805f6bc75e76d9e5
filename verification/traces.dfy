/** Who did what in a trace of steps that operations share. */
module Traces {
  import opened Text

  /** The steps of one operation, in order. */
  function Own<S>(steps: seq<S>, owner: S -> Option<nat>, pid: nat): seq<S> {
    if steps == [] then []
    else
      var last := steps[|steps| - 1];
      Own(steps[..|steps| - 1], owner, pid) + if owner(last) == Some(pid) then [last] else []
  }

  /** The trace grew from before to after, and pid itself took exactly the given steps. */
  ghost predicate Did<S>(before: seq<S>, after: seq<S>, owner: S -> Option<nat>, pid: nat, mine: seq<S>) {
    before <= after && Own(after[|before|..], owner, pid) == mine
  }

  /**
   * The same, for an operation that may be alone: then nothing but its own steps was added. A method that
   * promises this for both cases takes no step of anybody else.
   */
  ghost predicate Took<S>(
    alone: bool, before: seq<S>, after: seq<S>, owner: S -> Option<nat>, pid: nat, mine: seq<S>)
  {
    Did(before, after, owner, pid, mine) && (alone ==> after == before + mine)
  }

  lemma {:induction false} OwnConcat<S>(a: seq<S>, b: seq<S>, owner: S -> Option<nat>, pid: nat)
    ensures Own(a + b, owner, pid) == Own(a, owner, pid) + Own(b, owner, pid)
  {
    if b == [] {
      assert a + b == a;
    } else {
      OwnConcat(a, b[..|b| - 1], owner, pid);
      assert (a + b)[..|a + b| - 1] == a + b[..|b| - 1];
    }
  }

  lemma {:induction false} NothingOwned<S>(steps: seq<S>, owner: S -> Option<nat>, pid: nat)
    requires forall i :: 0 <= i < |steps| ==> owner(steps[i]) != Some(pid)
    ensures Own(steps, owner, pid) == []
  {
    if steps != [] {
      NothingOwned(steps[..|steps| - 1], owner, pid);
    }
  }

  lemma TookNothing<S>(alone: bool, t: seq<S>, owner: S -> Option<nat>, pid: nat)
    ensures Took(alone, t, t, owner, pid, [])
  {
    assert t[|t|..] == [];
  }

  lemma TookOne<S>(alone: bool, t: seq<S>, s: S, owner: S -> Option<nat>, pid: nat)
    requires owner(s) == Some(pid)
    ensures Took(alone, t, t + [s], owner, pid, [s])
  {
    assert (t + [s])[|t|..] == [s];
    assert [s][..0] == [];
  }

  lemma TookGrows<S>(alone: bool, a: seq<S>, b: seq<S>, owner: S -> Option<nat>, pid: nat, mine: seq<S>)
    requires Took(alone, a, b, owner, pid, mine)
    ensures a <= b
  {
  }

  lemma TookThen<S>(alone: bool, a: seq<S>, b: seq<S>, c: seq<S>, owner: S -> Option<nat>, pid: nat,
                    first: seq<S>, second: seq<S>, both: seq<S>)
    requires Took(alone, a, b, owner, pid, first) && Took(alone, b, c, owner, pid, second)
    requires both == first + second
    ensures Took(alone, a, c, owner, pid, both)
  {
    hide Own;
    OwnConcat(b[|a|..], c[|b|..], owner, pid);
    assert c[|a|..] == b[|a|..] + c[|b|..];
    if alone {
      assert b == a + first && c == (a + first) + second;
      assert (a + first) + second == a + (first + second);
    }
  }
}
