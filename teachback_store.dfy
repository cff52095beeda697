/**
 * The in-memory teach-back session store: a `Map` from session id to
 * session, filled by `create`, read by `get` and shallow-merged by `update`.
 * The random session id is a parameter.
 */
module TeachBackStore {
  import opened Wrappers
  import opened JsonModel

  datatype Session = Session(
    sessionId: string,
    conceptId: Option<Json>,
    conceptTitle: Option<Json>,
    conceptDescription: Option<Json>,
    userId: Json,
    attempts: int,
    status: string,
    lastRubric: Json,
    lastSummary: string,
    lastNextStep: string,
    transcript: seq<Json>)

  /** The fields an update names; an absent field keeps the session's value. */
  datatype SessionPatch = SessionPatch(
    sessionId: Option<string>,
    conceptId: Option<Option<Json>>,
    conceptTitle: Option<Option<Json>>,
    conceptDescription: Option<Option<Json>>,
    userId: Option<Json>,
    attempts: Option<int>,
    status: Option<string>,
    lastRubric: Option<Json>,
    lastSummary: Option<string>,
    lastNextStep: Option<string>,
    transcript: Option<seq<Json>>)

  function NoChanges(): SessionPatch {
    SessionPatch(None, None, None, None, None, None, None, None, None, None, None)
  }

  /** A new session: no attempts, NEEDS_CLARIFICATION, nothing summarised, an empty transcript, `userId || 'anonymous'`. */
  function NewSession(sessionId: string, conceptId: Option<Json>, conceptTitle: Option<Json>, conceptDescription: Option<Json>,
                      userId: Option<Json>): (s: Session)
    ensures s.sessionId == sessionId && s.conceptId == conceptId
    ensures s.attempts == 0 && s.status == "NEEDS_CLARIFICATION" && s.transcript == []
    ensures s.lastRubric == JNull && s.lastSummary == "" && s.lastNextStep == ""
    ensures JsTruthy(userId) ==> s.userId == userId.value
    ensures !JsTruthy(userId) ==> s.userId == JStr("anonymous")
    ensures JsTruthy(Some(s.userId))
  {
    Session(sessionId, conceptId, conceptTitle, conceptDescription,
      if JsTruthy(userId) then userId.value else JStr("anonymous"),
      0, "NEEDS_CLARIFICATION", JNull, "", "", [])
  }

  /** `{ ...session, ...updates }`. */
  function Merge(session: Session, updates: SessionPatch): (r: Session)
    ensures updates.attempts.Some? ==> r.attempts == updates.attempts.value
    ensures updates.attempts.None? ==> r.attempts == session.attempts
    ensures updates.status.Some? ==> r.status == updates.status.value
    ensures updates.status.None? ==> r.status == session.status
    ensures r.sessionId == if updates.sessionId.Some? then updates.sessionId.value else session.sessionId
    ensures r.conceptId == if updates.conceptId.Some? then updates.conceptId.value else session.conceptId
    ensures r.conceptTitle == if updates.conceptTitle.Some? then updates.conceptTitle.value else session.conceptTitle
    ensures r.conceptDescription == if updates.conceptDescription.Some? then updates.conceptDescription.value else session.conceptDescription
    ensures r.userId == if updates.userId.Some? then updates.userId.value else session.userId
    ensures r.lastRubric == if updates.lastRubric.Some? then updates.lastRubric.value else session.lastRubric
    ensures r.lastSummary == if updates.lastSummary.Some? then updates.lastSummary.value else session.lastSummary
    ensures r.lastNextStep == if updates.lastNextStep.Some? then updates.lastNextStep.value else session.lastNextStep
    ensures r.transcript == if updates.transcript.Some? then updates.transcript.value else session.transcript
  {
    Session(
      updates.sessionId.GetOr(session.sessionId),
      updates.conceptId.GetOr(session.conceptId),
      updates.conceptTitle.GetOr(session.conceptTitle),
      updates.conceptDescription.GetOr(session.conceptDescription),
      updates.userId.GetOr(session.userId),
      updates.attempts.GetOr(session.attempts),
      updates.status.GetOr(session.status),
      updates.lastRubric.GetOr(session.lastRubric),
      updates.lastSummary.GetOr(session.lastSummary),
      updates.lastNextStep.GetOr(session.lastNextStep),
      updates.transcript.GetOr(session.transcript))
  }

  /** Merging nothing changes nothing. */
  lemma MergeNothing(session: Session)
    ensures Merge(session, NoChanges()) == session
  {
  }

  /** Merging the same fields twice is merging them once. */
  lemma MergeIdempotent(session: Session, updates: SessionPatch)
    ensures Merge(Merge(session, updates), updates) == Merge(session, updates)
  {
  }

  /** Two merges in a row are one merge in which the later fields win. */
  lemma MergeTwice(session: Session, first: SessionPatch, second: SessionPatch)
    ensures Merge(Merge(session, first), second) == Merge(session, Then(first, second))
  {
  }

  function Then(first: SessionPatch, second: SessionPatch): SessionPatch {
    SessionPatch(
      if second.sessionId.Some? then second.sessionId else first.sessionId,
      if second.conceptId.Some? then second.conceptId else first.conceptId,
      if second.conceptTitle.Some? then second.conceptTitle else first.conceptTitle,
      if second.conceptDescription.Some? then second.conceptDescription else first.conceptDescription,
      if second.userId.Some? then second.userId else first.userId,
      if second.attempts.Some? then second.attempts else first.attempts,
      if second.status.Some? then second.status else first.status,
      if second.lastRubric.Some? then second.lastRubric else first.lastRubric,
      if second.lastSummary.Some? then second.lastSummary else first.lastSummary,
      if second.lastNextStep.Some? then second.lastNextStep else first.lastNextStep,
      if second.transcript.Some? then second.transcript else first.transcript)
  }

  /** The module-level `sessions` map. */
  class SessionStore {
    var sessions: map<string, Session>

    constructor()
      ensures sessions == map[]
    {
      sessions := map[];
    }

    /** `createTeachBackSession`: stores the new session under `sessionId` (the random id) and returns it. */
    method Create(sessionId: string, conceptId: Option<Json>, conceptTitle: Option<Json>, conceptDescription: Option<Json>,
                  userId: Option<Json>) returns (session: Session)
      modifies this
      ensures session == NewSession(sessionId, conceptId, conceptTitle, conceptDescription, userId)
      ensures sessions == old(sessions)[sessionId := session]
    {
      session := NewSession(sessionId, conceptId, conceptTitle, conceptDescription, userId);
      sessions := sessions[sessionId := session];
    }

    /** `getTeachBackSession`: the stored session, `undefined` for an unknown id. */
    function Get(sessionId: string): (r: Option<Session>)
      reads this
      ensures r.Some? <==> sessionId in sessions
      ensures r.Some? ==> r.value == sessions[sessionId]
    {
      if sessionId in sessions then Some(sessions[sessionId]) else None
    }

    /**
     * `updateTeachBackSession`: `null` and no change for an unknown id;
     * otherwise that one entry becomes the merged session, which is returned.
     */
    method Update(sessionId: string, updates: SessionPatch) returns (r: Option<Session>)
      modifies this
      ensures sessionId !in old(sessions) ==> r.None? && sessions == old(sessions)
      ensures sessionId in old(sessions) ==>
        r == Some(Merge(old(sessions)[sessionId], updates)) && sessions == old(sessions)[sessionId := r.value]
      ensures sessions.Keys == old(sessions.Keys)
    {
      if sessionId !in sessions {
        return None;
      }
      var next := Merge(sessions[sessionId], updates);
      sessions := sessions[sessionId := next];
      r := Some(next);
    }
  }

  /** A created session reads back as created, and updating it returns what the next read sees. */
  method CreateThenUpdate(store: SessionStore, sessionId: string, userId: Option<Json>, updates: SessionPatch)
    returns (created: Session, updated: Option<Session>)
    modifies store
    ensures created.attempts == 0 && created.status == "NEEDS_CLARIFICATION"
    ensures updated == Some(Merge(created, updates))
    ensures store.Get(sessionId) == updated
  {
    created := store.Create(sessionId, None, None, None, userId);
    assert store.Get(sessionId) == Some(created);
    updated := store.Update(sessionId, updates);
  }
}
