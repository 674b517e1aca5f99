/** The policy on protected resources, and the store that reads them under its own second check. */
module ToolPolicy {
  import opened Wrappers
  import opened JsonText
  import opened PercentDecoding
  import opened LogicalPaths
  import opened CapabilityRouter
  import opened AccessGrants

  const STAR: CodeUnit := 0x2A

  /** The resource a request names, or None where it is out of every scope. */
  function NormalizeLogicalResource(resource: Text): Option<Text> {
    match Decode(resource)
    case None => None
    case Some(decoded) =>
      if decoded == [] || 0 in decoded || BACKSLASH in decoded || decoded[0] == SLASH then None
      else
        var normalized := Normalize(decoded);
        if normalized == DOTDOT || DOTDOT + [SLASH] <= normalized || normalized != decoded || PERCENT in decoded then None
        else Some(normalized)
  }

  predicate NoSpecial(p: Text) {
    0 !in p && BACKSLASH !in p && PERCENT !in p
  }

  /** The language of accepted resources: the root, or a clean relative path. */
  ghost predicate LogicalResource(p: Text) {
    p == [DOT] || p == [DOT, SLASH] || (NoSpecial(p) && exists segs :: CleanAs(p, segs))
  }

  /** A request is accepted exactly when it decodes to a text of the language, and stands for that text. */
  lemma NormalizeAcceptsExactly(resource: Text, r: Text)
    ensures NormalizeLogicalResource(resource) == Some(r) <==> Decode(resource) == Some(r) && LogicalResource(r)
  {
    hide Normalize, Split, Resolve, Join, Decode, PlainSegment, AllPlain;
    if NormalizeLogicalResource(resource) == Some(r) {
      var segs := NormalIsClean(r);
    }
    if Decode(resource) == Some(r) && LogicalResource(r) {
      if NoSpecial(r) && exists segs :: CleanAs(r, segs) {
        var segs :| CleanAs(r, segs);
        CleanIsNormal(r, segs);
        CleanSplits(r, segs);
      } else {
        RootsAreNormal();
      }
    }
  }

  lemma RootsAreNormal()
    ensures Normalize([DOT]) == [DOT] && Normalize([DOT, SLASH]) == [DOT, SLASH]
    ensures Split([DOT]) == [[DOT]] && Split([DOT, SLASH]) == [[DOT], []]
  {
    SplitPlain([DOT]);
    assert [DOT] + [SLASH] + [] == [DOT, SLASH];
    SplitAtSlash([DOT], []);
    assert Resolve([], true) == [];
    assert [[DOT]][..0] == [] && [[DOT], []][..1] == [[DOT]];
    assert Resolve([[DOT]], true) == [];
    assert Resolve([[DOT], []], true) == [];
  }

  /** An accepted resource is accepted again and stands for itself. */
  lemma NormalizeIsIdempotent(resource: Text)
    requires NormalizeLogicalResource(resource).Some?
    ensures NormalizeLogicalResource(NormalizeLogicalResource(resource).value) == NormalizeLogicalResource(resource)
  {
    var r := NormalizeLogicalResource(resource).value;
    NormalizeAcceptsExactly(resource, r);
    DecodePlain(r);
    NormalizeAcceptsExactly(r, r);
  }

  // ---------- the policy ----------

  datatype DenyReason = InvalidGrant | GrantRevoked | GrantExpired | ToolNotAllowed | ResourceOutOfScope | OperationNotAllowed

  datatype Decision = Allow | Deny(reason: DenyReason)

  datatype AccessRequest = AccessRequest(grantId: string, tool: string, resource: Text, operation: string)

  predicate EndsWithStar(pattern: Text) {
    |pattern| >= 2 && pattern[|pattern| - 2] == SLASH && pattern[|pattern| - 1] == STAR
  }

  predicate Matches(pattern: Text, resource: Text) {
    if EndsWithStar(pattern) then pattern[..|pattern| - 1] <= resource else resource == pattern
  }

  /** The first scope whose pattern matches. */
  function MatchingScope(scopes: seq<ResourceScope>, resource: Text): Option<ResourceScope> {
    if scopes == [] then None
    else if Matches(scopes[0].pattern, resource) then Some(scopes[0])
    else MatchingScope(scopes[1..], resource)
  }

  function Evaluate(grant: Option<AccessGrant>, request: AccessRequest, now: int): Decision {
    if grant.None? || grant.value.id != request.grantId then Deny(InvalidGrant)
    else
      var g := grant.value;
      if g.status == Revoked then Deny(GrantRevoked)
      else if g.status == Expired || (g.expiresAt.Some? && g.expiresAt.value <= now) then Deny(GrantExpired)
      else if request.tool !in g.allowedTools then Deny(ToolNotAllowed)
      else match NormalizeLogicalResource(request.resource)
        case None => Deny(ResourceOutOfScope)
        case Some(resource) =>
          match MatchingScope(g.resourceScopes, resource)
          case None => Deny(ResourceOutOfScope)
          case Some(scope) => if request.operation in scope.permissions then Allow else Deny(OperationNotAllowed)
  }

  /** The pattern is that of everything below `base`. */
  ghost predicate IsBelow(pattern: Text, base: Text) {
    pattern == base + Ascii("/") + Ascii("*")
  }

  /** A pattern that ends in a slash and a star covers the resources below it; any other covers the resource it names. */
  ghost predicate Covers(pattern: Text, resource: Text) {
    if exists base :: IsBelow(pattern, base) then exists base :: IsBelow(pattern, base) && base + Ascii("/") <= resource
    else resource == pattern
  }

  lemma MatchesExactly(pattern: Text, resource: Text)
    ensures Matches(pattern, resource) <==> Covers(pattern, resource)
  {
    forall base | IsBelow(pattern, base) ensures EndsWithStar(pattern) && base == pattern[..|pattern| - 2] {
      BelowEnds(pattern, base);
    }
    if EndsWithStar(pattern) {
      var base := pattern[..|pattern| - 2];
      assert pattern[..|pattern| - 1] == base + Ascii("/");
      assert IsBelow(pattern, base);
    }
  }

  lemma BelowEnds(pattern: Text, base: Text)
    requires IsBelow(pattern, base)
    ensures EndsWithStar(pattern) && base == pattern[..|pattern| - 2]
  {
  }

  ghost predicate FirstMatch(scopes: seq<ResourceScope>, resource: Text, i: int) {
    && 0 <= i < |scopes| && Covers(scopes[i].pattern, resource)
    && forall j :: 0 <= j < i ==> !Covers(scopes[j].pattern, resource)
  }

  lemma {:induction false} MatchingScopeIsFirst(scopes: seq<ResourceScope>, resource: Text) returns (i: nat)
    ensures var m := MatchingScope(scopes, resource);
      if m.Some? then FirstMatch(scopes, resource, i) && m.value == scopes[i]
      else forall k :: 0 <= k < |scopes| ==> !Covers(scopes[k].pattern, resource)
  {
    hide Matches, Covers;
    i := 0;
    if scopes != [] { MatchesExactly(scopes[0].pattern, resource); }
    if scopes != [] && !Matches(scopes[0].pattern, resource) {
      var rest := MatchingScopeIsFirst(scopes[1..], resource);
      i := rest + 1;
      if MatchingScope(scopes[1..], resource).None? {
        assert forall k :: 1 <= k < |scopes| ==> scopes[k] == scopes[1..][k - 1];
      } else {
        assert forall j :: 1 <= j < i ==> scopes[j] == scopes[1..][j - 1];
      }
    }
  }

  /** The clause that admits a request: the first scope matching the resource, when it permits the operation. */
  ghost predicate Admits(g: AccessGrant, request: AccessRequest, r: Text, i: int) {
    && Decode(request.resource) == Some(r) && LogicalResource(r)
    && FirstMatch(g.resourceScopes, r, i) && request.operation in g.resourceScopes[i].permissions
  }

  /**
    * A read is allowed exactly under the grant it names, while that is active and not past its time, for one of its
    * tools, and for a resource of the language whose first matching scope permits the operation.
    */
  lemma AllowedExactly(grant: Option<AccessGrant>, request: AccessRequest, now: int)
    ensures Evaluate(grant, request, now) == Allow <==>
            && grant.Some? && grant.value.id == request.grantId && grant.value.status == Active
            && (grant.value.expiresAt.Some? ==> now < grant.value.expiresAt.value)
            && request.tool in grant.value.allowedTools
            && exists r, i :: Admits(grant.value, request, r, i)
  {
    hide NormalizeLogicalResource, LogicalResource, Decode, Matches, Covers;
    if grant.Some? {
      var g := grant.value;
      match NormalizeLogicalResource(request.resource) {
        case Some(resource) =>
          NormalizeAcceptsExactly(request.resource, resource);
          var i := MatchingScopeIsFirst(g.resourceScopes, resource);
          if MatchingScope(g.resourceScopes, resource).Some? && request.operation in g.resourceScopes[i].permissions {
            assert Admits(g, request, resource, i);
          }
        case None =>
          forall r, i | Admits(g, request, r, i) ensures false {
            NormalizeAcceptsExactly(request.resource, r);
          }
      }
    }
  }

  /**
    * What a new grant is worth: it names its session, task and agent, carries the agent's own tools and scopes, and for
    * fifteen minutes allows exactly what they allow.
    */
  lemma NewGrantAllowsExactly(token: string, sessionId: string, taskId: string, agent: AgentManifest, now: int,
                              request: AccessRequest, at: int)
    ensures var g := NewGrant(token, sessionId, taskId, agent, now);
      && g.sessionId == sessionId && g.taskId == taskId && g.agentId == agent.agentId
      && g.resourceScopes == agent.resourceScopes
      && (Evaluate(Some(g), request, at) == Allow <==>
           && request.grantId == token && at < now + 15 * 60 * 1000 && request.tool in agent.allowedTools
           && exists r, i :: Admits(g, request, r, i))
  {
    AllowedExactly(Some(NewGrant(token, sessionId, taskId, agent, now)), request, at);
    hide Evaluate, Admits;
  }

  /** Each reason of a denial, in the order in which the policy looks at the grant, the tool and the resource. */
  lemma DenialsExactly(grant: Option<AccessGrant>, request: AccessRequest, now: int)
    ensures var decision := Evaluate(grant, request, now);
      var named := grant.Some? && grant.value.id == request.grantId;
      && (decision == Deny(InvalidGrant) <==> !named)
      && (named ==>
           var g, r := grant.value, NormalizeLogicalResource(request.resource);
           var late := g.status == Expired || (g.expiresAt.Some? && g.expiresAt.value <= now);
           && (decision == Deny(GrantRevoked) <==> g.status == Revoked)
           && (g.status != Revoked ==>
                && (decision == Deny(GrantExpired) <==> late)
                && (!late ==>
                     && (decision == Deny(ToolNotAllowed) <==> request.tool !in g.allowedTools)
                     && (request.tool in g.allowedTools ==>
                          && (decision == Deny(ResourceOutOfScope) <==>
                               r.None? || forall i :: 0 <= i < |g.resourceScopes| ==> !Covers(g.resourceScopes[i].pattern, r.value))
                          && (decision == Deny(OperationNotAllowed) <==> decision != Allow && decision != Deny(ResourceOutOfScope))))))
  {
    hide NormalizeLogicalResource, Covers, Matches;
    if grant.Some? && NormalizeLogicalResource(request.resource).Some? {
      var i := MatchingScopeIsFirst(grant.value.resourceScopes, NormalizeLogicalResource(request.resource).value);
    }
  }

  // ---------- the resource store ----------

  /** The absolute path of the protected root. */
  function RootPath(root: Text): Text {
    [SLASH] + Join(Resolve(Split(root), false))
  }

  /** The file that is read, or None where the store refuses the resource. */
  function ReadPath(root: Text, resource: Text): Option<Text> {
    match NormalizeLogicalResource(resource)
    case None => None
    case Some(logical) =>
      var absolute := ResolvePath(root, logical);
      if RootPath(root) + [SLASH] <= absolute then Some(absolute) else None
  }

  lemma ResolvesBelow(root: Text, p: Text, segs: seq<Text>)
    requires CleanAs(p, segs)
    ensures ResolvePath(root, p) == [SLASH] + Join(Resolve(Split(root), false) + segs)
  {
    CleanSplits(p, segs);
    hide Split, Resolve, Join, PlainSegment;
    SplitAtSlash(root, p);
    ResolvePlain(Split(root), segs, false);
    Regroup(Split(root), segs);
  }

  lemma Regroup(a: seq<Text>, b: seq<Text>)
    ensures a + (b + [[]]) == a + b + [[]]
  {
  }

  lemma ResolvesToRoot(root: Text)
    ensures ResolvePath(root, [DOT]) == RootPath(root) && ResolvePath(root, [DOT, SLASH]) == RootPath(root)
  {
    RootsAreNormal();
    var base := Split(root);
    SplitAtSlash(root, [DOT]);
    SplitAtSlash(root, [DOT, SLASH]);
    assert (base + [[DOT]])[..|base|] == base;
    assert (base + [[DOT], []])[..|base| + 1] == base + [[DOT]];
  }

  /**
    * The second check refuses an accepted resource exactly when it names the root itself, or when the protected root is
    * the root of the file system; otherwise the file lies below the protected root, at the segments of the resource.
    */
  lemma GuardFiresExactly(root: Text, resource: Text, r: Text)
    requires NormalizeLogicalResource(resource) == Some(r)
    ensures ReadPath(root, resource).None? <==> r == [DOT] || r == [DOT, SLASH] || RootPath(root) == [SLASH]
    ensures forall segs :: CleanAs(r, segs) && RootPath(root) != [SLASH] ==>
              ReadPath(root, resource) == Some(RootPath(root) + [SLASH] + Join(segs))
  {
    hide CleanAs, Resolve, Split, Join, NormalizeLogicalResource;
    NormalizeAcceptsExactly(resource, r);
    if r == [DOT] || r == [DOT, SLASH] {
      ResolvesToRoot(root);
      forall segs | CleanAs(r, segs) ensures false {
        RootIsNotClean(r, segs);
      }
    } else {
      forall segs | CleanAs(r, segs)
        ensures ReadPath(root, resource)
             == if RootPath(root) == [SLASH] then None else Some(RootPath(root) + [SLASH] + Join(segs))
      {
        GuardedRead(root, resource, r, segs);
      }
      var segs :| CleanAs(r, segs);
    }
  }

  lemma RootIsNotClean(r: Text, segs: seq<Text>)
    requires r == [DOT] || r == [DOT, SLASH]
    ensures !CleanAs(r, segs)
  {
    RootsAreNormal();
    if CleanAs(r, segs) {
      FirstSegmentIsPlain(r, segs);
    }
  }

  lemma GuardedRead(root: Text, resource: Text, r: Text, segs: seq<Text>)
    requires NormalizeLogicalResource(resource) == Some(r) && CleanAs(r, segs)
    ensures ReadPath(root, resource) == if RootPath(root) == [SLASH] then None else Some(RootPath(root) + [SLASH] + Join(segs))
  {
    hide Resolve, Split, Join, NormalizeLogicalResource, AllPlain, ResolvePath;
    var base := Resolve(Split(root), false);
    ResolvesBelow(root, r, segs);
    JoinEnds(segs);
    RootIsNotEmpty(root);
    if base != [] {
      JoinAppend(base, segs);
    }
    assert Join([]) == [] by { NothingJoined(); }
    hide CleanAs;
    if base == [] {
      assert base + segs == segs;
      assert RootPath(root) == [SLASH];
      assert ResolvePath(root, r)[1] != SLASH;
    } else {
      var absolute, prefix := ResolvePath(root, r), RootPath(root) + [SLASH];
      assert absolute == prefix + Join(segs);
    }
  }

  lemma NothingJoined()
    ensures Join([]) == []
  {
  }

  lemma {:induction false} AbsoluteShape(segs: seq<Text>)
    ensures forall i :: 0 <= i < |Resolve(segs, false)| ==> Resolve(segs, false)[i] != []
  {
    if segs != [] {
      AbsoluteShape(segs[..|segs| - 1]);
    }
  }

  lemma RootIsNotEmpty(root: Text)
    ensures Resolve(Split(root), false) != [] ==> Join(Resolve(Split(root), false)) != []
  {
    AbsoluteShape(Split(root));
  }

  // ---------- containment ----------

  /** The pattern of everything below a clean path `p`. */
  ghost predicate SubtreePattern(pattern: Text, p: seq<Text>) {
    p != [] && AllPlain(p) && pattern == Join(p) + [SLASH, STAR]
  }

  /** A resource that matches the pattern of `p` lies at or below `p`. */
  lemma MatchIsBelow(pattern: Text, p: seq<Text>, r: Text, segs: seq<Text>)
    requires SubtreePattern(pattern, p) && CleanAs(r, segs) && Matches(pattern, r)
    ensures p <= segs
  {
    hide Split, Join, PlainSegment;
    var prefix := Join(p) + [SLASH];
    assert pattern[..|pattern| - 1] == prefix;
    var t := r[|prefix|..];
    assert r == Join(p) + [SLASH] + t;
    PlainHasNoSlash(p);
    SplitJoin(p);
    SplitAtSlash(Join(p), t);
    CleanSplits(r, segs);
    assert p <= Split(r);
    assert forall i :: 0 <= i < |p| ==> p[i] == Split(r)[i];
  }

  /**
    * A request allowed by the scope of everything below `p` is never stopped by the second check, and the file it reads is the directory
    * `p` of the protected root or lies below it.
    */
  lemma AllowedReadsStayInScope(root: Text, resource: Text, r: Text, pattern: Text, p: seq<Text>) returns (rest: seq<Text>)
    requires NormalizeLogicalResource(resource) == Some(r) && RootPath(root) != [SLASH]
    requires SubtreePattern(pattern, p) && Covers(pattern, r)
    ensures AllPlain(p + rest)
    ensures ReadPath(root, resource) == Some(RootPath(root) + [SLASH] + Join(p + rest))
  {
    hide NormalizeLogicalResource, ReadPath, Resolve, Split, Matches, Covers, PlainSegment;
    MatchesExactly(pattern, r);
    NormalizeAcceptsExactly(resource, r);
    GuardFiresExactly(root, resource, r);
    NotTheRoot(pattern, p, r);
    var segs :| CleanAs(r, segs);
    MatchIsBelow(pattern, p, r, segs);
    rest := segs[|p|..];
    assert p + rest == segs;
  }

  lemma NotTheRoot(pattern: Text, p: seq<Text>, r: Text)
    requires SubtreePattern(pattern, p) && Matches(pattern, r)
    ensures r != [DOT] && r != [DOT, SLASH]
  {
    var prefix := Join(p) + [SLASH];
    JoinIsNotDot(p);
    JoinEnds(p);
    assert pattern[..|pattern| - 1] == prefix && prefix <= r;
    assert Join(p)[0] == prefix[0] == r[0];
    assert |Join(p)| == 1 ==> Join(p) == [Join(p)[0]];
  }

  lemma JoinIsNotDot(p: seq<Text>)
    requires p != [] && AllPlain(p)
    ensures Join(p) != [DOT]
  {
    hide Split, Join;
    PlainHasNoSlash(p);
    SplitJoin(p);
    SplitPlain([DOT]);
    assert PlainSegment(p[0]);
  }
}
