/** Grants: what one agent may read while it runs one task. */
module AccessGrants {
  import opened Wrappers
  import opened CapabilityRouter

  datatype GrantStatus = Active | Revoked | Expired

  datatype AccessGrant = AccessGrant(
    id: string,
    sessionId: string,
    taskId: string,
    agentId: string,
    allowedTools: seq<string>,
    resourceScopes: seq<ResourceScope>,
    status: GrantStatus,
    expiresAt: Option<int>
  )

  type GrantTable = map<string, AccessGrant>

  const TTL_MS := 15 * 60000

  function NewGrant(id: string, sessionId: string, taskId: string, agent: AgentManifest, now: int): AccessGrant {
    AccessGrant(id, sessionId, taskId, agent.agentId, agent.allowedTools, agent.resourceScopes, Active, Some(now + TTL_MS))
  }

  function AfterIssue(grants: GrantTable, grant: AccessGrant): GrantTable {
    grants[grant.id := grant]
  }

  function AfterRevoke(grants: GrantTable, id: string): GrantTable {
    if id in grants then grants[id := grants[id].(status := Revoked)] else grants
  }

  /** A table of grants is what the history of issues and revocations made it. */
  datatype GrantEvent = Issue(grant: AccessGrant) | Revoke(id: string)

  function AfterGrants(events: seq<GrantEvent>): GrantTable {
    if events == [] then map[]
    else
      var before := AfterGrants(events[..|events| - 1]);
      match events[|events| - 1]
      case Issue(grant) => AfterIssue(before, grant)
      case Revoke(id) => AfterRevoke(before, id)
  }

  /** A token is issued at most once and for an active grant. */
  ghost predicate FreshTokens(events: seq<GrantEvent>) {
    && (forall i :: 0 <= i < |events| && events[i].Issue? ==> events[i].grant.status == Active)
    && forall i, j :: 0 <= i < j < |events| && events[i].Issue? && events[j].Issue? ==> events[i].grant.id != events[j].grant.id
  }

  ghost function StatusSince(events: seq<GrantEvent>, i: nat, id: string): GrantStatus {
    if exists j :: i < j < |events| && events[j] == Revoke(id) then Revoked else Active
  }

  /** A grant is exactly what was issued, and it is active exactly until its first revocation after that. */
  lemma {:induction false} GrantLifetime(events: seq<GrantEvent>, id: string)
    requires FreshTokens(events)
    ensures id in AfterGrants(events) <==> exists i :: 0 <= i < |events| && events[i].Issue? && events[i].grant.id == id
    ensures forall i :: 0 <= i < |events| && events[i].Issue? && events[i].grant.id == id ==>
              AfterGrants(events)[id] == events[i].grant.(status := StatusSince(events, i, id))
  {
    if events != [] {
      var init, last := events[..|events| - 1], events[|events| - 1];
      assert FreshTokens(init) by {
        assert forall i :: 0 <= i < |init| ==> init[i] == events[i];
      }
      GrantLifetime(init, id);
      if last.Issue? && last.grant.id == id {
        assert forall i :: 0 <= i < |init| && init[i].Issue? ==> events[i].grant.id != id;
        assert last.grant.(status := Active) == last.grant;
      } else {
        forall i | 0 <= i < |events| && events[i].Issue? && events[i].grant.id == id
          ensures AfterGrants(events)[id] == events[i].grant.(status := StatusSince(events, i, id))
        {
          assert i < |init| && init[i] == events[i];
          assert forall j :: i < j < |init| ==> init[j] == events[j];
          if last == Revoke(id) {
            assert events[|init|] == Revoke(id);
          }
        }
      }
    }
  }

  class AccessGrantService {
    var grants: GrantTable

    constructor ()
      ensures grants == map[]
    {
      grants := map[];
    }

    /** Issues a grant under a token that was never used before. */
    method IssueGrant(token: string, sessionId: string, taskId: string, agent: AgentManifest, now: int)
      returns (grant: AccessGrant)
      requires token !in grants
      modifies this
      ensures grant == NewGrant(token, sessionId, taskId, agent, now)
      ensures grants == AfterIssue(old(grants), grant)
    {
      grant := NewGrant(token, sessionId, taskId, agent, now);
      grants := grants[token := grant];
    }

    method GetGrant(id: string) returns (grant: Option<AccessGrant>)
      ensures grant == if id in grants then Some(grants[id]) else None
    {
      grant := if id in grants then Some(grants[id]) else None;
    }

    method RevokeGrant(id: string)
      modifies this
      ensures grants == AfterRevoke(old(grants), id)
    {
      if id in grants {
        grants := grants[id := grants[id].(status := Revoked)];
      }
    }
  }
}
