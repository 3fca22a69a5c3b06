/**
 * The transaction scope `session_scope`: the body of a `with` block works on a
 * session; a normal exit commits, a database error rolls back and is
 * re-raised, and the session is closed on every path. Whether the database
 * refuses a commit is a parameter.
 */
module Sessions {
  import opened Wrappers

  /** What happens to the session's transaction, in order. */
  datatype Event = Commit | Rollback | Close

  /** One thing the body of the `with` block does with its session. */
  datatype Action<C> =
    | Add(change: C)                    // session.add(...)
    | Flush(failure: Option<Exception>) // an explicit session.commit() in the body, which may be refused
    | Fail(error: Exception)            // the body raises

  /** The session's state: committed changes, uncommitted ones, the events so far and what was raised. */
  datatype Stage<C> = Stage(durable: seq<C>, pending: seq<C>, events: seq<Event>, raised: Option<Exception>)

  /** A commit: pending changes become durable, or the refusal is raised and nothing becomes durable. */
  function CommitStage<C>(s: Stage<C>, failure: Option<Exception>): Stage<C>
  {
    if failure.None? then s.(durable := s.durable + s.pending, pending := [], events := s.events + [Commit])
    else s.(events := s.events + [Commit], raised := failure)
  }

  function Act<C>(s: Stage<C>, a: Action<C>): Stage<C>
  {
    match a
    case Add(c) => s.(pending := s.pending + [c])
    case Flush(f) => CommitStage(s, f)
    case Fail(e) => s.(raised := Some(e))
  }

  /** The body's actions, in order, until one raises. */
  function RunBody<C>(s: Stage<C>, body: seq<Action<C>>): Stage<C>
  {
    if body == [] then s
    else
      var before := RunBody(s, body[..|body| - 1]);
      if before.raised.Some? then before else Act(before, body[|body| - 1])
  }

  /** The whole `with session_scope()` block, from a fresh session over `durable`. */
  function ScopeResult<C>(durable: seq<C>, body: seq<Action<C>>, finalCommit: Option<Exception>): Stage<C>
  {
    var b := RunBody(Stage(durable, [], [], None), body);
    var c := if b.raised.None? then CommitStage(b, finalCommit) else b;
    var r := if c.raised.Some? && IsDatabaseError(c.raised.value) then c.(pending := [], events := c.events + [Rollback]) else c;
    r.(pending := [], events := r.events + [Close])
  }

  /** Every change the body adds, in order. */
  function Adds<C>(body: seq<Action<C>>): seq<C>
  {
    if body == [] then []
    else Adds(body[..|body| - 1]) + (if body[|body| - 1].Add? then [body[|body| - 1].change] else [])
  }

  /** A database session. */
  class Session<C> {
    var durable: seq<C>
    var pending: seq<C>
    var events: seq<Event>
    var closed: bool

    /** `Session()`: an open session with no transaction activity yet. */
    constructor (durable: seq<C>)
      ensures this.durable == durable && pending == [] && events == [] && !closed
    {
      this.durable := durable;
      pending, events, closed := [], [], false;
    }

    /** `session.add(change)`: pending until committed. */
    method Add(change: C)
      modifies this
      ensures pending == old(pending) + [change]
      ensures durable == old(durable) && events == old(events) && closed == old(closed)
    {
      pending := pending + [change];
    }

    /** `session.commit()`: makes the pending changes durable, or raises the database's refusal. */
    method Commit(failure: Option<Exception>) returns (raised: Option<Exception>)
      modifies this
      ensures raised == failure && events == old(events) + [Event.Commit] && closed == old(closed)
      ensures failure.None? ==> durable == old(durable) + old(pending) && pending == []
      ensures failure.Some? ==> durable == old(durable) && pending == old(pending)
    {
      events := events + [Event.Commit];
      if failure.None? {
        durable, pending := durable + pending, [];
      }
      raised := failure;
    }

    /** `session.rollback()`: the pending changes are discarded. */
    method Rollback()
      modifies this
      ensures pending == [] && durable == old(durable) && events == old(events) + [Event.Rollback] && closed == old(closed)
    {
      pending := [];
      events := events + [Event.Rollback];
    }

    /** `session.close()`: anything still pending is discarded and the session is closed. */
    method Close()
      modifies this
      ensures pending == [] && durable == old(durable) && events == old(events) + [Event.Close] && closed
    {
      pending, closed := [], true;
      events := events + [Event.Close];
    }
  }

  /** The body of the `with` block, run on the session until it raises. */
  method RunActions<C>(session: Session<C>, body: seq<Action<C>>) returns (raised: Option<Exception>)
    requires !session.closed
    modifies session
    ensures !session.closed
    ensures Stage(session.durable, session.pending, session.events, raised)
         == RunBody(Stage(old(session.durable), old(session.pending), old(session.events), None), body)
  {
    ghost var start := Stage(session.durable, session.pending, session.events, None);
    raised := None;
    var i := 0;
    while i < |body| && raised.None?
      invariant 0 <= i <= |body| && !session.closed
      invariant Stage(session.durable, session.pending, session.events, raised) == RunBody(start, body[..i])
    {
      assert body[..i + 1][..i] == body[..i];
      match body[i] {
        case Add(c) => session.Add(c);
        case Flush(f) => raised := session.Commit(f);
        case Fail(e) => raised := Some(e);
      }
      i := i + 1;
    }
    if raised.Some? {
      RunBodyAfterRaise(start, body, i);
    } else {
      assert body[..i] == body;
    }
  }

  /**
   * `with session_scope() as session: <body>`: commits on a normal exit,
   * rolls back and re-raises on a database error, re-raises anything else,
   * and closes the session on every path.
   */
  method Scope<C>(session: Session<C>, body: seq<Action<C>>, finalCommit: Option<Exception>) returns (raised: Option<Exception>)
    requires !session.closed && session.pending == [] && session.events == []
    modifies session
    ensures session.closed && session.pending == []
    ensures Stage(session.durable, [], session.events, raised) == ScopeResult(old(session.durable), body, finalCommit)
  {
    raised := RunActions(session, body);
    if raised.None? {
      raised := session.Commit(finalCommit);
    }
    if raised.Some? && IsDatabaseError(raised.value) {
      session.Rollback();
    }
    session.Close();
  }

  /** Once the body has raised, its remaining actions do not run. */
  lemma {:induction false} RunBodyAfterRaise<C>(s: Stage<C>, body: seq<Action<C>>, i: nat)
    requires i <= |body| && RunBody(s, body[..i]).raised.Some?
    ensures RunBody(s, body) == RunBody(s, body[..i])
    decreases |body| - i
  {
    if i < |body| {
      assert body[..i + 1][..i] == body[..i];
      RunBodyAfterRaise(s, body, i + 1);
    } else {
      assert body[..i] == body;
    }
  }

  /**
   * What the body does on its own: it only commits (never rolls back or
   * closes), never loses a committed change, and what it has committed plus
   * what is pending is a prefix of what it adds, all of it when it did not raise.
   */
  lemma {:induction false} RunBodyFacts<C>(durable: seq<C>, body: seq<Action<C>>)
    ensures var b := RunBody(Stage(durable, [], [], None), body);
      (forall e :: e in b.events ==> e == Commit) &&
      durable <= b.durable &&
      b.durable + b.pending <= durable + Adds(body) &&
      (b.raised.None? ==> b.durable + b.pending == durable + Adds(body)) &&
      ((forall i :: 0 <= i < |body| ==> !body[i].Flush?) ==> b.durable == durable)
  {
    if body != [] {
      var init := body[..|body| - 1];
      RunBodyFacts(durable, init);
      var b := RunBody(Stage(durable, [], [], None), init);
      var a := body[|body| - 1];
      assert (forall i :: 0 <= i < |body| ==> !body[i].Flush?) ==> (forall i :: 0 <= i < |init| ==> !init[i].Flush?);
      if b.raised.None? && a.Add? {
        assert b.durable + (b.pending + [a.change]) == durable + Adds(init) + [a.change];
      }
      if b.raised.None? && a.Flush? && a.failure.None? {
        assert b.durable + b.pending + [] == b.durable + b.pending;
      }
    }
  }

  /** The session is closed on every path, exactly once, as the last thing that happens to it. */
  lemma ScopeCloses<C>(durable: seq<C>, body: seq<Action<C>>, finalCommit: Option<Exception>)
    ensures var r := ScopeResult(durable, body, finalCommit);
      |r.events| > 0 && r.events[|r.events| - 1] == Close && Close !in r.events[..|r.events| - 1]
  {
    RunBodyFacts(durable, body);
    var r := ScopeResult(durable, body, finalCommit);
    assert r.events[..|r.events| - 1] + [Close] == r.events;
  }

  /** A rollback happens exactly when a database error leaves the block, and it comes right before the close. */
  lemma ScopeRollsBack<C>(durable: seq<C>, body: seq<Action<C>>, finalCommit: Option<Exception>)
    ensures var r := ScopeResult(durable, body, finalCommit);
      (Rollback in r.events <==> r.raised.Some? && IsDatabaseError(r.raised.value)) &&
      (Rollback in r.events ==> r.events[|r.events| - 2] == Rollback)
  {
    RunBodyFacts(durable, body);
  }

  /**
   * A normal exit commits: everything the body added becomes durable and
   * the last events are a commit and the close. On any error what is durable
   * lies between what was durable before and everything the body added, and
   * it is unchanged when the body made no explicit commit of its own.
   */
  lemma ScopeCommits<C>(durable: seq<C>, body: seq<Action<C>>, finalCommit: Option<Exception>)
    ensures var r := ScopeResult(durable, body, finalCommit);
      (r.raised.None? ==> r.durable == durable + Adds(body) && r.events[|r.events| - 2..] == [Commit, Close]) &&
      durable <= r.durable <= durable + Adds(body) &&
      (r.raised.Some? && (forall i :: 0 <= i < |body| ==> !body[i].Flush?) ==> r.durable == durable)
  {
    RunBodyFacts(durable, body);
    var b := RunBody(Stage(durable, [], [], None), body);
    var r := ScopeResult(durable, body, finalCommit);
    if b.raised.None? && finalCommit.None? {
      assert r.durable == b.durable + b.pending;
      assert r.events == b.events + [Commit] + [Close];
    } else {
      assert r.durable == b.durable;
      assert b.durable <= b.durable + b.pending;
    }
  }

  /** The exception that leaves the block is the first one raised, by the body or by the final commit. */
  lemma ScopeReraises<C>(durable: seq<C>, body: seq<Action<C>>, finalCommit: Option<Exception>)
    ensures var b := RunBody(Stage(durable, [], [], None), body);
      ScopeResult(durable, body, finalCommit).raised == if b.raised.Some? then b.raised else finalCommit
  {
  }
}
