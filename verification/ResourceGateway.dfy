/** Reads of protected resources on behalf of agents, and the record of what each task was allowed to read. */
module ResourceGateway {
  import opened Wrappers
  import opened JsonText
  import opened AccessGrants
  import opened ToolPolicy

  /** Whom a read is accounted to. */
  datatype Holder = Holder(sessionId: string, taskId: string, agentId: string)

  type Provenance = map<Holder, set<Text>>

  const READ_TOOL := "resource.read"
  const READ := "read"

  /** "resource://" */
  const SCHEME: Text := [0x72, 0x65, 0x73, 0x6F, 0x75, 0x72, 0x63, 0x65, 0x3A, 0x2F, 0x2F]

  function SourceRef(resource: Text): Text {
    SCHEME + resource
  }

  function HolderOf(grant: AccessGrant): Holder {
    Holder(grant.sessionId, grant.taskId, grant.agentId)
  }

  function RefsOf(refs: Provenance, holder: Holder): set<Text> {
    if holder in refs then refs[holder] else {}
  }

  function Recorded(refs: Provenance, holder: Holder, ref: Text): Provenance {
    refs[holder := RefsOf(refs, holder) + {ref}]
  }

  function ReadRequest(grantId: string, resource: Text): AccessRequest {
    AccessRequest(grantId, READ_TOOL, resource, READ)
  }

  datatype ReadError = AccessDenied(reason: DenyReason) | ReadFailed

  class ResourceGatewayService {
    const grants: AccessGrantService
    const root: Text
    var authorizedSourceRefs: Provenance

    constructor (grants: AccessGrantService, root: Text)
      ensures this.grants == grants && this.root == root && authorizedSourceRefs == map[]
    {
      this.grants, this.root := grants, root;
      authorizedSourceRefs := map[];
    }

    /** A reference is recorded exactly when the policy allows the read and the store finds the file. */
    method ReadResource(grantId: string, resource: Text, now: int, files: map<Text, Text>)
      returns (r: Result<(Text, Text), ReadError>)
      modifies `authorizedSourceRefs
      ensures var grant := if grantId in grants.grants then Some(grants.grants[grantId]) else None;
        var decision := Evaluate(grant, ReadRequest(grantId, resource), now);
        match r
        case Success((content, ref)) =>
          && decision == Allow && ref == SourceRef(resource)
          && ReadPath(root, resource).Some? && ReadPath(root, resource).value in files
          && content == files[ReadPath(root, resource).value]
          && authorizedSourceRefs == Recorded(old(authorizedSourceRefs), HolderOf(grant.value), ref)
        case Failure(error) =>
          && authorizedSourceRefs == old(authorizedSourceRefs)
          && (match error
              case AccessDenied(reason) => decision == Deny(reason)
              case ReadFailed => decision == Allow && (ReadPath(root, resource).None? || ReadPath(root, resource).value !in files))
    {
      hide ReadPath, SourceRef;
      var grant := grants.GetGrant(grantId);
      var decision := Evaluate(grant, ReadRequest(grantId, resource), now);
      if decision.Deny? {
        return Failure(AccessDenied(decision.reason));
      }
      var path := ReadPath(root, resource);
      if path.None? || path.value !in files {
        return Failure(ReadFailed);
      }
      var sourceRef := SourceRef(resource);
      var holder := HolderOf(grant.value);
      authorizedSourceRefs := authorizedSourceRefs[holder := RefsOf(authorizedSourceRefs, holder) + {sourceRef}];
      r := Success((files[path.value], sourceRef));
    }

    method ListAuthorizedSourceRefs(holder: Holder) returns (refs: set<Text>)
      ensures refs == RefsOf(authorizedSourceRefs, holder)
    {
      refs := if holder in authorizedSourceRefs then authorizedSourceRefs[holder] else {};
    }
  }
}
