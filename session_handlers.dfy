/** The two session handlers of `ripozo_sqlalchemy/session_handlers.py`. A
    database session is reduced to the log of the lifecycle calls made on
    it (rollback, close), in order. */
module SessionHandlers {
  import opened Common

  datatype SessionOp = RollbackOp | CloseOp

  /** A database session; its log records every `rollback()` and `close()`. */
  class Session {
    var log: seq<SessionOp>

    constructor ()
      ensures log == []
    {
      log := [];
    }

    method Rollback()
      modifies this
      ensures log == old(log) + [RollbackOp]
    {
      log := log + [RollbackOp];
    }

    method Close()
      modifies this
      ensures log == old(log) + [CloseOp]
    {
      log := log + [CloseOp];
    }
  }

  /** Number of occurrences of `op` in a log. */
  function Occurrences(log: seq<SessionOp>, op: SessionOp): nat {
    if |log| == 0 then 0 else (if log[0] == op then 1 else 0) + Occurrences(log[1..], op)
  }

  lemma {:induction false} OccurrencesAppend(a: seq<SessionOp>, b: seq<SessionOp>, op: SessionOp)
    ensures Occurrences(a + b, op) == Occurrences(a, op) + Occurrences(b, op)
    decreases |a|
  {
    if |a| == 0 {
      assert a + b == b;
    } else {
      assert (a + b)[1..] == a[1..] + b;
      OccurrencesAppend(a[1..], b, op);
    }
  }

  /** What `ScopedSessionHandler.handle_session` does to a session: a
      rollback exactly when an exception is passed, then a close in every
      case. */
  function ScopedEffect(exc: Option<Error>): (ops: seq<SessionOp>)
    ensures Occurrences(ops, RollbackOp) == (if exc.Some? then 1 else 0)
    ensures Occurrences(ops, CloseOp) == 1 && ops[|ops| - 1] == CloseOp
  {
    if exc.Some? then [RollbackOp, CloseOp] else [CloseOp]
  }

  /** What `SessionHandler.handle_session` does to a session: a rollback
      exactly when an exception is passed, and never a close. */
  function PlainEffect(exc: Option<Error>): (ops: seq<SessionOp>)
    ensures Occurrences(ops, RollbackOp) == (if exc.Some? then 1 else 0)
    ensures Occurrences(ops, CloseOp) == 0
  {
    if exc.Some? then [RollbackOp] else []
  }

  /** A handler built on a `scoped_session`: `session_maker()` hands out the
      session this handler's registry holds for the calling thread. */
  class ScopedSessionHandler {
    const registry: Session

    constructor (registry: Session)
      ensures this.registry == registry
    {
      this.registry := registry;
    }

    method GetSession() returns (s: Session)
      ensures s == registry
    {
      s := registry;
    }

    /** `handle_session(session, exc)`: roll back when `exc` is given, then
        close in every case. */
    static method HandleSession(session: Session, exc: Option<Error>)
      modifies session
      ensures session.log == old(session.log) + ScopedEffect(exc)
    {
      if exc.Some? {
        session.Rollback();
      }
      session.Close();
    }
  }

  /** A handler over one session managed elsewhere (Flask-SQLAlchemy's). */
  class SessionHandler {
    const session: Session

    constructor (session: Session)
      ensures this.session == session
    {
      this.session := session;
    }

    /** Always the session the handler was constructed with. */
    method GetSession() returns (s: Session)
      ensures s == session
    {
      s := session;
    }

    /** `handle_session(session, exc)`: roll back when `exc` is given;
        the session stays open. */
    static method HandleSession(session: Session, exc: Option<Error>)
      modifies session
      ensures session.log == old(session.log) + PlainEffect(exc)
    {
      if exc.Some? {
        session.Rollback();
      }
    }
  }

  /** The handler a manager was initialised with. */
  datatype Handler = Scoped(scoped: ScopedSessionHandler) | Plain(plain: SessionHandler)

  /** The effect of `handler.handle_session(session, exc)`. */
  function HandleEffect(handler: Handler, exc: Option<Error>): seq<SessionOp> {
    match handler
    case Scoped(_) => ScopedEffect(exc)
    case Plain(_) => PlainEffect(exc)
  }

  /** The session `handler.get_session()` returns. */
  function SessionOf(handler: Handler): Session {
    match handler
    case Scoped(h) => h.registry
    case Plain(h) => h.session
  }

  method GetSession(handler: Handler) returns (s: Session)
    ensures s == SessionOf(handler)
  {
    match handler
    case Scoped(h) => s := h.GetSession();
    case Plain(h) => s := h.GetSession();
  }

  method HandleSession(handler: Handler, session: Session, exc: Option<Error>)
    modifies session
    ensures session.log == old(session.log) + HandleEffect(handler, exc)
  {
    match handler
    case Scoped(_) => ScopedSessionHandler.HandleSession(session, exc);
    case Plain(_) => SessionHandler.HandleSession(session, exc);
  }

  /** Handling a session appends at most one rollback, and one only when an
      exception is passed; only the scoped handler closes, once. */
  lemma HandleEffectCounts(handler: Handler, log: seq<SessionOp>, exc: Option<Error>)
    ensures Occurrences(log + HandleEffect(handler, exc), RollbackOp)
            == Occurrences(log, RollbackOp) + (if exc.Some? then 1 else 0)
    ensures Occurrences(log + HandleEffect(handler, exc), CloseOp)
            == Occurrences(log, CloseOp) + (if handler.Scoped? then 1 else 0)
  {
    OccurrencesAppend(log, HandleEffect(handler, exc), RollbackOp);
    OccurrencesAppend(log, HandleEffect(handler, exc), CloseOp);
  }
}
