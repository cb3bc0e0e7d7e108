/**
 * The single-logout index: service ticket (the "mapping id") to session, and session id back to
 * ticket, held in two hash maps that every operation updates in place.
 */
module SessionMappingStorage {
  import opened Wrappers
  import opened WebSession

  /** The two maps: `MANAGED_SESSIONS` and `ID_TO_SESSION_KEY_MAPPING`. */
  datatype Tables = Tables(managedSessions: map<string, Session>, idToSessionKey: map<string, string>)

  const Empty := Tables(map[], map[])

  /** The maps are mutual inverses: each ticket's session maps back to that ticket, and each
      session id's ticket maps to a session with that id. */
  predicate Inverse(t: Tables) {
    (forall m :: m in t.managedSessions ==>
       t.managedSessions[m].id in t.idToSessionKey && t.idToSessionKey[t.managedSessions[m].id] == m)
    && (forall id :: id in t.idToSessionKey ==>
          t.idToSessionKey[id] in t.managedSessions && t.managedSessions[t.idToSessionKey[id]].id == id)
  }

  /** `addSessionById(m, s)`. */
  function Add(t: Tables, m: string, s: Session): (r: Tables)
    ensures m in r.managedSessions && r.managedSessions[m] == s
    ensures s.id in r.idToSessionKey && r.idToSessionKey[s.id] == m
    ensures forall k :: k in t.managedSessions && k != m ==> k in r.managedSessions && r.managedSessions[k] == t.managedSessions[k]
    ensures forall k :: k in r.managedSessions ==> k == m || k in t.managedSessions
    ensures forall id :: id in t.idToSessionKey && id != s.id ==> id in r.idToSessionKey && r.idToSessionKey[id] == t.idToSessionKey[id]
    ensures forall id :: id in r.idToSessionKey ==> id == s.id || id in t.idToSessionKey
  {
    Tables(t.managedSessions[m := s], t.idToSessionKey[s.id := m])
  }

  /** `removeBySessionById(id)`: the id's entry and the ticket it names are dropped; an unmapped id changes nothing. */
  function RemoveBySessionId(t: Tables, id: string): (r: Tables)
    ensures id !in t.idToSessionKey ==> r == t
    ensures id in t.idToSessionKey ==>
              r.idToSessionKey.Keys == t.idToSessionKey.Keys - {id}
              && r.managedSessions.Keys == t.managedSessions.Keys - {t.idToSessionKey[id]}
    ensures forall k :: k in r.managedSessions ==> r.managedSessions[k] == t.managedSessions[k]
    ensures forall k :: k in r.idToSessionKey ==> r.idToSessionKey[k] == t.idToSessionKey[k]
  {
    if id in t.idToSessionKey then
      Tables(t.managedSessions - {t.idToSessionKey[id]}, t.idToSessionKey - {id})
    else t
  }

  /** `removeSessionByMappingId(m)`: the mapped session, removed by its id; an unmapped ticket changes nothing. */
  function RemoveByMappingId(t: Tables, m: string): (r: (Tables, Option<Session>))
    ensures m !in t.managedSessions ==> r == (t, None)
    ensures m in t.managedSessions ==>
              r == (RemoveBySessionId(t, t.managedSessions[m].id), Some(t.managedSessions[m]))
  {
    if m in t.managedSessions then
      var s := t.managedSessions[m];
      (RemoveBySessionId(t, s.id), Some(s))
    else (t, None)
  }

  class HashMapBackedSessionStorage {
    var managedSessions: map<string, Session>
    var idToSessionKeyMapping: map<string, string>

    function State(): Tables
      reads this
    {
      Tables(managedSessions, idToSessionKeyMapping)
    }

    constructor()
      ensures State() == Empty
    {
      managedSessions := map[];
      idToSessionKeyMapping := map[];
    }

    method RemoveSessionByMappingId(mappingId: string) returns (r: Option<Session>)
      modifies this
      ensures (State(), r) == RemoveByMappingId(old(State()), mappingId)
    {
      if mappingId in managedSessions {
        var session := managedSessions[mappingId];
        RemoveBySessionById(session.id);
        return Some(session);
      }
      return None;
    }

    method RemoveBySessionById(sessionId: string)
      modifies this
      ensures State() == RemoveBySessionId(old(State()), sessionId)
    {
      if sessionId in idToSessionKeyMapping {
        var key := idToSessionKeyMapping[sessionId];
        managedSessions := managedSessions - {key};
      }
      idToSessionKeyMapping := idToSessionKeyMapping - {sessionId};
    }

    method AddSessionById(mappingId: string, session: Session)
      modifies this
      ensures State() == Add(old(State()), mappingId, session)
    {
      idToSessionKeyMapping := idToSessionKeyMapping[session.id := mappingId];
      managedSessions := managedSessions[mappingId := session];
    }
  }

  /* ---------- properties ---------- */

  lemma EmptyIsInverse()
    ensures Inverse(Empty)
  {
  }

  /** Adding a session that is already indexed under another ticket leaves that old ticket
      pointing at it, while its id now names the new ticket. */
  lemma AddKeepsStaleTicket(t: Tables, m: string, s: Session)
    requires Inverse(t) && s.id in t.idToSessionKey && t.idToSessionKey[s.id] != m
    ensures !Inverse(Add(t, m, s))
  {
    var old_ := t.idToSessionKey[s.id];
    var r := Add(t, m, s);
    assert old_ in r.managedSessions && r.managedSessions[old_].id == s.id;
    assert r.idToSessionKey[s.id] != old_;
  }

  /** Adding under a ticket that already names another session leaves that session's id
      pointing at a ticket that now belongs to someone else. */
  lemma AddKeepsStaleSessionId(t: Tables, m: string, s: Session)
    requires Inverse(t) && m in t.managedSessions && t.managedSessions[m].id != s.id
    ensures !Inverse(Add(t, m, s))
  {
    var other := t.managedSessions[m].id;
    var r := Add(t, m, s);
    assert other in r.idToSessionKey && r.idToSessionKey[other] == m;
    assert r.managedSessions[m].id != other;
  }

  /** Adding a fresh ticket for an unindexed session keeps the maps inverse. */
  lemma AddFreshKeepsInverse(t: Tables, m: string, s: Session)
    requires Inverse(t) && m !in t.managedSessions && s.id !in t.idToSessionKey
    ensures Inverse(Add(t, m, s))
  {
  }

  /** Removal by session id keeps the maps inverse and unmaps the id. */
  lemma RemoveBySessionIdKeepsInverse(t: Tables, id: string)
    requires Inverse(t)
    ensures Inverse(RemoveBySessionId(t, id)) && id !in RemoveBySessionId(t, id).idToSessionKey
  {
    var r := RemoveBySessionId(t, id);
    if id in t.idToSessionKey {
      var key := t.idToSessionKey[id];
      forall m | m in r.managedSessions
        ensures r.managedSessions[m].id in r.idToSessionKey && r.idToSessionKey[r.managedSessions[m].id] == m
      {
        assert m != key;
        assert t.managedSessions[m].id != id;
      }
    }
  }

  /** The ticket-request sequence: drop the session's old mapping, then map the new ticket to it.
      It keeps the maps inverse whenever the ticket is not already mapped. */
  lemma RemoveThenAddKeepsInverse(t: Tables, m: string, s: Session)
    requires Inverse(t) && m !in t.managedSessions
    ensures var r := Add(RemoveBySessionId(t, s.id), m, s);
            Inverse(r) && r.managedSessions[m] == s && r.idToSessionKey[s.id] == m
  {
    RemoveBySessionIdKeepsInverse(t, s.id);
    AddFreshKeepsInverse(RemoveBySessionId(t, s.id), m, s);
  }

  /** Single logout by ticket keeps the maps inverse and leaves neither the ticket nor the session id mapped. */
  lemma RemoveByMappingIdKeepsInverse(t: Tables, m: string)
    requires Inverse(t)
    ensures var (r, s) := RemoveByMappingId(t, m);
            Inverse(r) && m !in r.managedSessions
            && (s.Some? ==> s.value.id !in r.idToSessionKey && s.value == t.managedSessions[m])
  {
    if m in t.managedSessions {
      RemoveBySessionIdKeepsInverse(t, t.managedSessions[m].id);
    }
  }

  /** After single logout by ticket, the listener's removal by the session's id changes nothing. */
  lemma RemovalAfterLogoutIsNoOp(t: Tables, m: string)
    requires Inverse(t) && m in t.managedSessions
    ensures var (r, s) := RemoveByMappingId(t, m);
            RemoveBySessionId(r, s.value.id) == r
  {
    RemoveBySessionIdKeepsInverse(t, t.managedSessions[m].id);
  }

  /** Without the inverse invariant, single logout can leave the ticket mapped: a session id that
      names a different ticket removes that ticket instead. */
  lemma LogoutWithoutInverse(s: Session)
    ensures var t := Tables(map["ST-1" := s], map[s.id := "ST-2"]);
            "ST-1" in RemoveByMappingId(t, "ST-1").0.managedSessions
  {
  }
}
