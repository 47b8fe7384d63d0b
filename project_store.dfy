/**
 * ProjectStore: the sessions of the web service, one MainController per
 * project id, with a bound on how many may be open and an idle timeout.
 * The store is one sequential map; the clock reading and the fresh id are
 * arguments of the operations that use them.
 */
module Projects {
  import opened Wrappers
  import opened MainControl

  /** Integer.MAX_VALUE, the bound when none is configured. */
  const MaxInt: int := 0x7fff_ffff

  /** A Java int product: the exact value wrapped into 32 bits. */
  function Wrap32(x: int): (r: int)
    ensures -0x8000_0000 <= r < 0x8000_0000
    ensures (r - x) % 0x1_0000_0000 == 0
  {
    (x + 0x8000_0000) % 0x1_0000_0000 - 0x8000_0000
  }

  /**
   * The timeout in milliseconds: minutes * 60 is an int product, and only
   * then is it widened to long and multiplied by 1000.
   */
  function TimeoutMillis(minutes: int): int
  {
    Wrap32(minutes * 60) * 1000
  }

  /** For timeouts up to about 68 years the product does not wrap. */
  lemma TimeoutMillisExact(minutes: int)
    requires -0x8000_0000 <= minutes * 60 < 0x8000_0000
    ensures TimeoutMillis(minutes) == minutes * 60000
  {
  }

  /** A minute count above 35791394 wraps round, here to a negative timeout. */
  lemma TimeoutMillisWraps()
    ensures TimeoutMillis(35791395) < 0
  {
  }

  /** The bound createProject enforces: maxSessions, or no practical bound when it is not positive. */
  function EffectiveMax(maxSessions: int): (r: int)
    ensures r >= 1
    ensures maxSessions > 0 ==> r == maxSessions
    ensures maxSessions <= 0 ==> r == MaxInt
  {
    if maxSessions > 0 then maxSessions else MaxInt
  }

  /** A session: its controller and the clock reading of its last use. */
  datatype ProjectSession = ProjectSession(controller: MainController, lastAccessTime: int)
  {
    /** touch: the access time becomes the clock reading. */
    function Touch(now: int): ProjectSession {
      this.(lastAccessTime := now)
    }

    /** Expired: idle for strictly longer than the timeout. */
    predicate IsExpired(now: int, timeoutMillis: int) {
      now - lastAccessTime > timeoutMillis
    }
  }

  /** The sessions removeIf leaves: those not expired. */
  function Live(projects: map<string, ProjectSession>, now: int, timeoutMillis: int): (r: map<string, ProjectSession>)
    ensures forall id :: id in r <==> id in projects && !projects[id].IsExpired(now, timeoutMillis)
    ensures forall id :: id in r ==> r[id] == projects[id]
  {
    map id | id in projects && !projects[id].IsExpired(now, timeoutMillis) :: projects[id]
  }

  /** The ids removeIf drops: those of the expired sessions. */
  function Expired(projects: map<string, ProjectSession>, now: int, timeoutMillis: int): set<string>
  {
    set id | id in projects && projects[id].IsExpired(now, timeoutMillis)
  }

  /** Cleanup removes exactly the expired sessions, so the count drops by their number. */
  lemma LiveCount(projects: map<string, ProjectSession>, now: int, timeoutMillis: int)
    ensures |projects| - |Live(projects, now, timeoutMillis)| == |Expired(projects, now, timeoutMillis)|
  {
    var live := Live(projects, now, timeoutMillis);
    var gone := Expired(projects, now, timeoutMillis);
    assert projects.Keys == live.Keys + gone;
    assert live.Keys * gone == {};
    assert |live.Keys + gone| == |live.Keys| + |gone|;
  }

  /** A session used at `touched`, with no more than the timeout elapsed since, survives cleanup with its controller. */
  lemma TouchedSurvives(projects: map<string, ProjectSession>, id: string, touched: int, now: int, timeoutMillis: int)
    requires id in projects
    requires now - touched <= timeoutMillis
    ensures var after := Live(projects[id := projects[id].Touch(touched)], now, timeoutMillis);
            (id in after && after[id].controller == projects[id].controller)
  {
  }

  /** Cleaning up twice at the same time removes nothing the second time. */
  lemma CleanupIdempotent(projects: map<string, ProjectSession>, now: int, timeoutMillis: int)
    ensures Live(Live(projects, now, timeoutMillis), now, timeoutMillis) == Live(projects, now, timeoutMillis)
  {
  }

  class ProjectStore {
    var projects: map<string, ProjectSession>
    const sessionTimeoutMinutes: int
    const maxSessions: int

    /** The store as configured: daintiness.session.timeout-minutes (30 by default) and max-sessions (100 by default). */
    constructor (sessionTimeoutMinutes: int, maxSessions: int)
      ensures projects == map[]
      ensures this.sessionTimeoutMinutes == sessionTimeoutMinutes && this.maxSessions == maxSessions
    {
      projects := map[];
      this.sessionTimeoutMinutes := sessionTimeoutMinutes;
      this.maxSessions := maxSessions;
    }

    /**
     * createProject: None stands for the IllegalStateException thrown when
     * the store is full. Otherwise a new controller is stored under the
     * fresh id with the current clock reading, and the id is returned.
     */
    method CreateProject(freshId: string, now: int) returns (id: Option<string>)
      modifies this
      ensures |old(projects)| >= EffectiveMax(maxSessions) ==> id == None && projects == old(projects)
      ensures |old(projects)| < EffectiveMax(maxSessions) ==>
                id == Some(freshId) && freshId in projects && fresh(projects[freshId].controller) &&
                projects[freshId].lastAccessTime == now && projects == old(projects)[freshId := projects[freshId]]
      ensures |old(projects)| < EffectiveMax(maxSessions) && freshId !in old(projects) ==> |projects| == |old(projects)| + 1
    {
      var effectiveMaxSessions := EffectiveMax(maxSessions);
      if |projects| >= effectiveMaxSessions {
        return None;
      }
      var controller := new MainController();
      projects := projects[freshId := ProjectSession(controller, now)];
      id := Some(freshId);
    }

    /**
     * get: None (Optional.empty) for a null or empty id and for an unknown
     * one; for a known id, that session's controller, and its access time
     * becomes `now`.
     */
    method Get(projectId: Option<string>, now: int) returns (controller: Option<MainController>)
      modifies this
      ensures projectId.None? || projectId.value == "" || projectId.value !in old(projects) ==>
                controller == None && projects == old(projects)
      ensures projectId.Some? && projectId.value != "" && projectId.value in old(projects) ==>
                var s := old(projects)[projectId.value];
                controller == Some(s.controller) && projects == old(projects)[projectId.value := s.Touch(now)]
    {
      if projectId.None? || projectId.value == "" {
        return None;
      }
      if projectId.value in projects {
        var session := projects[projectId.value];
        projects := projects[projectId.value := session.Touch(now)];
        return Some(session.controller);
      }
      return None;
    }

    /** delete: false for null; otherwise true iff the id was stored, and only that session is removed. */
    method Delete(projectId: Option<string>) returns (removed: bool)
      modifies this
      ensures removed <==> projectId.Some? && projectId.value in old(projects)
      ensures projectId.None? ==> projects == old(projects)
      ensures projectId.Some? ==> projects == old(projects) - {projectId.value}
    {
      if projectId.None? {
        return false;
      }
      removed := projectId.value in projects;
      projects := projects - {projectId.value};
    }

    function GetActiveProjectCount(): (n: nat)
      reads this
    {
      |projects|
    }

    /** cleanupExpiredSessions: every session idle for longer than the configured timeout is removed, and no other. */
    method CleanupExpiredSessions(now: int)
      modifies this
      ensures projects == Live(old(projects), now, TimeoutMillis(sessionTimeoutMinutes))
    {
      var timeoutMillis := TimeoutMillis(sessionTimeoutMinutes);
      projects := map id | id in projects && !projects[id].IsExpired(now, timeoutMillis) :: projects[id];
    }

    /** forceCleanup: the cleanup, returning how many sessions it removed. */
    method ForceCleanup(now: int) returns (removed: int)
      modifies this
      ensures projects == Live(old(projects), now, TimeoutMillis(sessionTimeoutMinutes))
      ensures removed == |Expired(old(projects), now, TimeoutMillis(sessionTimeoutMinutes))|
    {
      var before := GetActiveProjectCount();
      CleanupExpiredSessions(now);
      LiveCount(old(projects), now, TimeoutMillis(sessionTimeoutMinutes));
      removed := before - GetActiveProjectCount();
    }
  }

  /** Deleting an id a second time returns false and changes nothing. */
  lemma DeleteTwice(projects: map<string, ProjectSession>, id: string)
    ensures id !in projects - {id}
    ensures (projects - {id}) - {id} == projects - {id}
  {
  }

  /** A delete removes one session when the id was stored, and the other sessions keep their values. */
  lemma DeleteCount(projects: map<string, ProjectSession>, id: string)
    requires id in projects
    ensures |projects - {id}| == |projects| - 1
    ensures forall other :: other in projects && other != id ==> other in projects - {id} && (projects - {id})[other] == projects[other]
  {
    assert (projects - {id}).Keys == projects.Keys - {id};
  }
}
