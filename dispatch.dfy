/**
 * What the two reconciliation jobs share: the rows a query returns, the
 * calls of one `try` block (issued in order until one fails), and the part
 * of an action log that concerns one user.
 */
module Dispatch {
  import opened Outbound

  predicate Distinct(rows: seq<UserId>) {
    forall i, j :: 0 <= i < j < |rows| ==> rows[i] != rows[j]
  }

  /** Dropping the last row keeps the rows distinct, and the last row is not among the others. */
  lemma DistinctInit(rows: seq<UserId>, u: UserId)
    requires rows != [] && Distinct(rows)
    ensures Distinct(rows[..|rows| - 1]) && rows[|rows| - 1] !in rows[..|rows| - 1]
    ensures u in rows <==> u in rows[..|rows| - 1] || u == rows[|rows| - 1]
  {
    var init := rows[..|rows| - 1];
    assert rows == init + [rows[|rows| - 1]];
    forall i | 0 <= i < |init|
      ensures init[i] == rows[i]
    {
    }
  }

  /** The rows of a query result: every selected user once, in an order the store chooses. */
  method ListRows(selected: set<UserId>) returns (rows: seq<UserId>)
    ensures Distinct(rows)
    ensures forall u :: u in rows <==> u in selected
  {
    var pending := selected;
    rows := [];
    while pending != {}
      invariant Distinct(rows)
      invariant forall u :: u in rows ==> u !in pending
      invariant forall u :: u in selected <==> u in rows || u in pending
      decreases |pending|
    {
      assert (forall v :: v !in pending) ==> pending == {};
      var u :| u in pending;
      rows := rows + [u];
      pending := pending - {u};
    }
  }

  /**
   * The calls of one `try` block, issued in order: a failing call (one in
   * `failing`) is issued and ends the block; the calls after it are skipped.
   */
  function Attempted(calls: seq<Action>, failing: set<Action>): seq<Action>
    decreases |calls|
  {
    if calls == [] then []
    else if calls[0] in failing then [calls[0]]
    else [calls[0]] + Attempted(calls[1..], failing)
  }

  /**
   * The calls issued are a non-empty prefix of the block; every call but the
   * last one issued succeeded, and when the block stopped early its last
   * issued call is the one that failed.
   */
  lemma {:induction false} AttemptedIsPrefix(calls: seq<Action>, failing: set<Action>)
    ensures var issued := Attempted(calls, failing);
      |issued| <= |calls| && issued == calls[..|issued|]
      && (calls != [] ==> |issued| >= 1)
      && (forall j :: 0 <= j < |issued| - 1 ==> calls[j] !in failing)
      && (|issued| < |calls| ==> calls[|issued| - 1] in failing)
      && (|issued| == |calls| && calls != [] ==> (calls[|calls| - 1] in failing <==> exists j :: 0 <= j < |calls| && calls[j] in failing))
    decreases |calls|
  {
    if calls != [] && calls[0] !in failing {
      AttemptedIsPrefix(calls[1..], failing);
      var rest := Attempted(calls[1..], failing);
      assert Attempted(calls, failing) == [calls[0]] + rest;
      forall j | 0 <= j < |calls| && calls[j] in failing
        ensures j >= 1 && calls[1..][j - 1] in failing
      {
      }
    }
  }

  /** The actions of `log` that concern user `u`, in order. */
  function ActionsAbout(log: seq<Action>, u: UserId): (r: seq<Action>)
    ensures |r| <= |log|
    decreases |log|
  {
    if log == [] then []
    else ActionsAbout(log[..|log| - 1], u) + (if log[|log| - 1].user == u then [log[|log| - 1]] else [])
  }

  lemma {:induction false} ActionsAboutAppend(a: seq<Action>, b: seq<Action>, u: UserId)
    ensures ActionsAbout(a + b, u) == ActionsAbout(a, u) + ActionsAbout(b, u)
    decreases |b|
  {
    if b == [] {
      assert a + b == a;
    } else {
      var b' := b[..|b| - 1];
      assert (a + b)[..|a + b| - 1] == a + b';
      assert (a + b)[|a + b| - 1] == b[|b| - 1];
      ActionsAboutAppend(a, b', u);
    }
  }

  /** Filtering a log whose actions all concern one user. */
  lemma {:induction false} ActionsAboutOneUser(log: seq<Action>, v: UserId, u: UserId)
    requires forall j :: 0 <= j < |log| ==> log[j].user == v
    ensures ActionsAbout(log, u) == if u == v then log else []
    decreases |log|
  {
    if log != [] {
      ActionsAboutOneUser(log[..|log| - 1], v, u);
    }
  }

  /** Appending a block about user `v` adds that block to `v`'s actions and nothing to anyone else's. */
  lemma AppendBlock(before: seq<Action>, block: seq<Action>, v: UserId, u: UserId)
    requires forall j :: 0 <= j < |block| ==> block[j].user == v
    ensures ActionsAbout(before + block, u)
      == if u == v then ActionsAbout(before, u) + block else ActionsAbout(before, u)
  {
    ActionsAboutAppend(before, block, u);
    ActionsAboutOneUser(block, v, u);
    if u != v {
      assert ActionsAbout(before, u) + [] == ActionsAbout(before, u);
    }
  }

  /** One pass over the rows of a query: each row's block of calls, in row order. */
  function Pass(rows: seq<UserId>, block: UserId -> seq<Action>): seq<Action>
    decreases |rows|
  {
    if rows == [] then [] else Pass(rows[..|rows| - 1], block) + block(rows[|rows| - 1])
  }

  /** Every call of every user's block concerns that user. */
  ghost predicate BlocksConcernOwner(block: UserId -> seq<Action>) {
    forall v, j :: 0 <= j < |block(v)| ==> block(v)[j].user == v
  }

  /** Handling one more row extends the pass by that row's block. */
  lemma PassAppend(rows: seq<UserId>, i: nat, block: UserId -> seq<Action>)
    requires i < |rows|
    ensures Pass(rows[..i + 1], block) == Pass(rows[..i], block) + block(rows[i])
  {
    assert rows[..i + 1][..i] == rows[..i];
  }

  /**
   * Each user of a pass over distinct rows gets exactly the calls of their
   * own block, whatever the blocks of the other users hold; a user who is not
   * among the rows gets nothing.
   */
  lemma {:induction false} PassIsolation(rows: seq<UserId>, block: UserId -> seq<Action>, u: UserId)
    requires Distinct(rows) && BlocksConcernOwner(block)
    ensures ActionsAbout(Pass(rows, block), u) == if u in rows then block(u) else []
    decreases |rows|
  {
    if rows != [] {
      var init, last := rows[..|rows| - 1], rows[|rows| - 1];
      DistinctInit(rows, u);
      PassIsolation(init, block, u);
      AppendBlock(Pass(init, block), block(last), last, u);
    }
  }
}
