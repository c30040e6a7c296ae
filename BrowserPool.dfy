/**
 * The browser-session registry (dv_admin_automator/browser/pool.py): session id -> {manager, created_at},
 * kept in insertion order because the handlers that scan it take the first session that fits.
 */
module BrowserPool {
  import opened Wrappers
  import opened Entries

  /**
   * An opaque browser manager. `driver` holds once `start` has succeeded; `url` is what asking the
   * driver for its current URL yields (None when that probe raises).
   */
  datatype Manager = Manager(handle: nat, driver: bool, url: Option<string>)

  /** The value stored per session id. */
  datatype Session = Session(manager: Manager, createdAt: real)

  function Started(m: Manager): Manager { m.(driver := true) }

  /** The manager registered under `sid`, if any. */
  function ManagerOf(t: Table<string, Session>, sid: string): (r: Option<Manager>)
    ensures r.Some? <==> HasKey(t, sid)
  {
    match Get(t, sid)
    case None => None
    case Some(s) => Some(s.manager)
  }

  class Pool {
    var sessions: Table<string, Session>

    ghost predicate Valid()
      reads this
    {
      DistinctKeys(sessions)
    }

    constructor()
      ensures Valid() && sessions == []
    {
      sessions := [];
    }

    /**
     * `create_session`: start the manager, and only then register it under the fresh id `sid`.
     * `startOk` is whether `start` returned; when it raised, the exception reaches the caller (None here)
     * and the registry is untouched.
     */
    method CreateSession(m: Manager, startOk: bool, sid: string, now: real) returns (r: Option<string>)
      requires Valid()
      modifies this
      ensures Valid()
      ensures !startOk ==> r == None && sessions == old(sessions)
      ensures startOk ==> r == Some(sid) && sessions == Put(old(sessions), sid, Session(Started(m), now))
      ensures startOk ==> ManagerOf(sessions, sid) == Some(Started(m))
    {
      if !startOk {
        return None;
      }
      PutDistinct(sessions, sid, Session(Started(m), now));
      GetPut(sessions, sid, Session(Started(m), now), sid);
      sessions := Put(sessions, sid, Session(Started(m), now));
      r := Some(sid);
    }

    /** `get_manager`: a read-only lookup; an unknown id gives None. */
    method GetManager(sid: string) returns (m: Option<Manager>)
      ensures m.None? <==> !HasKey(sessions, sid)
      ensures m == ManagerOf(sessions, sid)
    {
      var e := Get(sessions, sid);
      if e.None? {
        return None;
      }
      m := Some(e.value.manager);
    }

    /**
     * `close_session`: pop the entry, then quit its manager. A failing quit (`quitOk` false) is only
     * logged: the entry is gone and the answer is still True.
     */
    method CloseSession(sid: string, quitOk: bool) returns (existed: bool)
      requires Valid()
      modifies this
      ensures Valid()
      ensures existed == HasKey(old(sessions), sid)
      ensures sessions == Remove(old(sessions), sid)
      ensures !HasKey(sessions, sid)
    {
      existed := HasKey(sessions, sid);
      RemoveDistinct(sessions, sid);
      sessions := Remove(sessions, sid);
    }
  }

  /** Every other session keeps its manager when one session is closed. */
  lemma CloseKeepsOthers(t: Table<string, Session>, sid: string, other: string)
    requires other != sid
    ensures ManagerOf(Remove(t, sid), other) == ManagerOf(t, other)
  {
    GetRemove(t, sid, other);
  }

  /** After a successful create, the new id resolves to the manager just started, and no other id changed. */
  lemma CreateThenGet(t: Table<string, Session>, m: Manager, sid: string, now: real, other: string)
    ensures ManagerOf(Put(t, sid, Session(Started(m), now)), sid) == Some(Started(m))
    ensures other != sid ==> ManagerOf(Put(t, sid, Session(Started(m), now)), other) == ManagerOf(t, other)
  {
    GetPut(t, sid, Session(Started(m), now), sid);
    GetPut(t, sid, Session(Started(m), now), other);
  }

  /** Closing twice: the second close finds nothing and changes nothing. */
  lemma CloseTwice(t: Table<string, Session>, sid: string)
    ensures !HasKey(Remove(t, sid), sid)
    ensures Remove(Remove(t, sid), sid) == Remove(t, sid)
  {
    RemoveAbsent(Remove(t, sid), sid);
  }

  /** `get_default_pool`: one pool, created on first use. */
  class DefaultPool {
    var pool: Pool?

    constructor()
      ensures pool == null
    {
      pool := null;
    }

    method Get() returns (p: Pool)
      modifies this
      ensures old(pool) != null ==> p == old(pool)
      ensures old(pool) == null ==> fresh(p) && p.Valid() && p.sessions == []
      ensures pool == p
    {
      if pool == null {
        pool := new Pool();
      }
      p := pool;
    }
  }
}
