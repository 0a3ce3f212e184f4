/** The eight approval-gated tools of internal/mcpserver: what each one checks before it
looks at an approval, which request it then asks the approval to match, and which
backend writes it will make. */
module Gates {
  import opened Text
  import opened Fingerprint
  import opened Records
  import opened Backend
  import opened Hunts
  import opened Ioc

  datatype ProfileArtifact = ProfileArtifact(name: string, parameters: map<string, string>)

  /** A DFIR profile; `sound` says its metadata passes `validateProfileMetadata`. */
  datatype Profile = Profile(sound: bool, artifacts: seq<ProfileArtifact>)

  datatype Policy = Policy(readOnly: bool, allowedArtifacts: set<string>, allowedProfiles: set<string>,
                           allowTargetAll: bool, maxHuntClients: int)

  datatype BackendOp = CollectOp | CancelFlowOp | DownloadOp | StartHuntOp | CancelHuntOp

  datatype Deps = Deps(
    policy: Option<Policy>,
    approvals: bool,                       // an approval store is configured
    profiles: Option<map<string, Profile>>,
    sink: bool,                            // an audit sink is configured
    client: bool,                          // a write client is present
    supports: BackendOp -> bool,
    realWrites: bool,
    downloadDir: bool,
    maxUploadBytes: int,
    valid: Validator,
    validParams: map<string, string> -> bool,
    fingerprint: Request -> string)        // `RequestFingerprint`; see Hashes

  datatype Common = Common(caseID: string, reason: string, requester: string, reference: string)

  datatype Input =
    | CollectArtifactIn(common: Common, clientID: string, artifact: string, parameters: map<string, string>)
    | CollectProfileIn(common: Common, clientID: string, profile: string)
    | CancelFlowIn(common: Common, clientID: string, flowID: string)
    | DownloadIn(common: Common, clientID: string, flowID: string, uploadName: string)
    | StartHuntIn(common: Common, artifact: string, parameters: map<string, string>, scope: Scope, maxClients: int)
    | StartProfileHuntIn(common: Common, profile: string, scope: Scope, maxClients: int)
    | CancelHuntIn(common: Common, huntID: string)
    | HuntIocIn(common: Common, kind: string, value: string, scope: Scope, maxClients: int)

  /** A call that passed every gate before the approval store. */
  datatype Admission =
    | Refused
    | Admitted(candidate: Request, op: BackendOp, plan: seq<Write>, scopeIDs: seq<string>)

  const blank := Request("", "", "", "", "", "", "", map[], "", "", "", "", [], "", false, 0)

  // ----- shared gates

  predicate PilotEnabled(d: Deps) {
    d.policy.Some? && !d.policy.value.readOnly && d.approvals
  }

  predicate CommonValid(d: Deps, c: Common) {
    && d.valid(CaseIDField, c.caseID) && d.valid(ReasonField, c.reason)
    && d.valid(RequesterField, c.requester) && d.valid(ReferenceField, c.reference)
  }

  predicate ArtifactAllowed(d: Deps, name: string) {
    d.policy.Some? && name in d.policy.value.allowedArtifacts
  }

  /** `ValidateProfile`: sound, not empty, every artifact on the allowlist. */
  predicate ProfileValid(d: Deps, p: Profile) {
    p.sound && |p.artifacts| > 0 && forall i | 0 <= i < |p.artifacts| :: ArtifactAllowed(d, p.artifacts[i].name)
  }

  function LookupProfile(d: Deps, name: string): (p: Option<Profile>) {
    if d.valid(ProfileField, name) && d.policy.Some? && name in d.policy.value.allowedProfiles
       && d.profiles.Some? && name in d.profiles.value && ProfileValid(d, d.profiles.value[name])
    then Some(d.profiles.value[name]) else None
  }

  predicate AllGate(d: Deps, all: bool) {
    all ==> d.policy.Some? && d.policy.value.allowTargetAll
  }

  /** `configuredMaxHuntClients`. */
  function MaxHuntClients(d: Deps): (n: int)
    ensures n >= 1
  {
    if d.policy.Some? && d.policy.value.maxHuntClients > 0 then d.policy.value.maxHuntClients else 100
  }

  function ClientLimit(d: Deps, requested: int): (n: int)
    ensures 1 <= n <= MaxHuntClients(d)
    ensures 1 <= requested <= MaxHuntClients(d) <==> n == requested
  {
    if 0 < requested < MaxHuntClients(d) then requested else MaxHuntClients(d)
  }

  // ----- the tools

  function CollectPlan(clientID: string, p: Profile): (plan: seq<Write>) {
    seq(|p.artifacts|, i requires 0 <= i < |p.artifacts| =>
          CollectArtifact(clientID, p.artifacts[i].name, p.artifacts[i].parameters))
  }

  function HuntPlan(p: Profile, scope: Scope, limit: int): (plan: seq<Write>) {
    seq(|p.artifacts|, i requires 0 <= i < |p.artifacts| =>
          StartHunt(p.artifacts[i].name, p.artifacts[i].parameters, scope, limit))
  }

  ghost function Admit(d: Deps, x: Input): (r: Admission) {
    if !PilotEnabled(d) || !CommonValid(d, x.common) then Refused
    else
      match x
      case CollectArtifactIn(c, clientID, artifact, parameters) =>
        if !d.valid(ClientIDField, clientID) || !d.valid(ArtifactField, artifact) || !d.validParams(parameters)
            || !ArtifactAllowed(d, artifact)
        then Refused
        else Admitted(blank.(operation := "collect_artifact", caseID := c.caseID, clientID := clientID,
                             artifact := artifact, parameters := parameters),
                      CollectOp, [CollectArtifact(clientID, artifact, parameters)], [])
      case CollectProfileIn(c, clientID, profile) =>
        if !d.valid(ClientIDField, clientID) || LookupProfile(d, profile).None? then Refused
        else Admitted(blank.(operation := "collect_dfir_profile", caseID := c.caseID, clientID := clientID,
                             profile := profile),
                      CollectOp, CollectPlan(clientID, LookupProfile(d, profile).value), [])
      case CancelFlowIn(c, clientID, flowID) =>
        if !d.valid(ClientIDField, clientID) || !d.valid(FlowIDField, flowID) then Refused
        else Admitted(blank.(operation := "cancel_flow", caseID := c.caseID, clientID := clientID, flowID := flowID),
                      CancelFlowOp, [CancelFlow(clientID, flowID)], [])
      case DownloadIn(c, clientID, flowID, uploadName) =>
        if !d.downloadDir || !d.valid(ClientIDField, clientID) || !d.valid(FlowIDField, flowID)
            || !d.valid(UploadNameField, uploadName)
        then Refused
        else Admitted(blank.(operation := "download_flow_upload", caseID := c.caseID, clientID := clientID,
                             flowID := flowID, uploadName := uploadName),
                      DownloadOp, [DownloadUpload(clientID, flowID, uploadName, d.maxUploadBytes)], [])
      case StartHuntIn(c, artifact, parameters, scope, maxClients) =>
        if !WellScoped(d.valid, scope) || !d.valid(ArtifactField, artifact) || !ArtifactAllowed(d, artifact)
            || !AllGate(d, scope.all)
        then Refused
        else Admitted(blank.(operation := "start_hunt", caseID := c.caseID, artifact := artifact,
                             parameters := parameters,
                             clientIDs := scope.clientIDs, labelName := scope.labelName, targetAll := scope.all),
                      StartHuntOp, [StartHunt(artifact, parameters, scope, ClientLimit(d, maxClients))],
                      scope.clientIDs)
      case StartProfileHuntIn(c, profile, scope, maxClients) =>
        if !WellScoped(d.valid, scope) || LookupProfile(d, profile).None? || !AllGate(d, scope.all) then Refused
        else Admitted(blank.(operation := "start_dfir_hunt", caseID := c.caseID, profile := profile,
                             clientIDs := scope.clientIDs, labelName := scope.labelName, targetAll := scope.all),
                      StartHuntOp, HuntPlan(LookupProfile(d, profile).value, scope, ClientLimit(d, maxClients)),
                      scope.clientIDs)
      case CancelHuntIn(c, huntID) =>
        if !d.valid(HuntIDField, huntID) then Refused
        else Admitted(blank.(operation := "cancel_hunt", caseID := c.caseID, huntID := huntID), CancelHuntOp,
                      [CancelHunt(huntID)], [])
      case HuntIocIn(c, kind, value, scope, maxClients) =>
        var built := BuildRequest(d.valid, c.caseID, c.reason, c.requester, kind, value, scope);
        if built.None? || !ArtifactAllowed(d, built.value.artifact) || !AllGate(d, scope.all) then Refused
        else Admitted(built.value, StartHuntOp,
                      [StartHunt(built.value.artifact, built.value.parameters, scope, ClientLimit(d, maxClients))],
                      scope.clientIDs)
  }

  // ----- when a call is admitted, and as what

  /** The server is in controlled mode and has an approval store. */
  ghost predicate MayWrite(d: Deps) {
    d.policy.Some? && !d.policy.value.readOnly && d.approvals
  }

  /** The profile is known, allowed, sound and not empty, and every artifact in it is allowed. */
  ghost predicate ProfileUsable(d: Deps, name: string) {
    && d.valid(ProfileField, name) && d.policy.Some? && name in d.policy.value.allowedProfiles
    && d.profiles.Some? && name in d.profiles.value
    && var p := d.profiles.value[name];
       p.sound && p.artifacts != [] && forall a | a in p.artifacts :: a.name in d.policy.value.allowedArtifacts
  }

  ghost predicate ScopeAllowed(d: Deps, s: Scope) {
    WellScoped(d.valid, s) && (s.all ==> d.policy.Some? && d.policy.value.allowTargetAll)
  }

  /** What each handler demands before it looks at an approval. */
  ghost predicate Gated(d: Deps, x: Input) {
    && MayWrite(d)
    && d.valid(CaseIDField, x.common.caseID) && d.valid(ReasonField, x.common.reason)
    && d.valid(RequesterField, x.common.requester) && d.valid(ReferenceField, x.common.reference)
    && var allowed := d.policy.value.allowedArtifacts;
       match x
       case CollectArtifactIn(_, clientID, artifact, parameters) =>
         && d.valid(ClientIDField, clientID) && d.valid(ArtifactField, artifact) && d.validParams(parameters)
         && artifact in allowed
       case CollectProfileIn(_, clientID, profile) => d.valid(ClientIDField, clientID) && ProfileUsable(d, profile)
       case CancelFlowIn(_, clientID, flowID) => d.valid(ClientIDField, clientID) && d.valid(FlowIDField, flowID)
       case DownloadIn(_, clientID, flowID, uploadName) =>
         && d.downloadDir && d.valid(ClientIDField, clientID) && d.valid(FlowIDField, flowID)
         && d.valid(UploadNameField, uploadName)
       case StartHuntIn(_, artifact, _, scope, _) =>
         ScopeAllowed(d, scope) && d.valid(ArtifactField, artifact) && artifact in allowed
       case StartProfileHuntIn(_, profile, scope, _) => ScopeAllowed(d, scope) && ProfileUsable(d, profile)
       case CancelHuntIn(_, huntID) => d.valid(HuntIDField, huntID)
       case HuntIocIn(_, kind, value, scope, _) =>
         && ScopeAllowed(d, scope) && kind == "hash" && ClassifyHash(value).Some?
         && "Generic.Detection.HashHunter" in allowed
  }

  lemma UsableProfiles(d: Deps, name: string)
    ensures LookupProfile(d, name).Some? <==> ProfileUsable(d, name)
    ensures ProfileUsable(d, name) ==> LookupProfile(d, name).value == d.profiles.value[name]
  {
    if d.profiles.Some? && name in d.profiles.value && d.policy.Some? {
      var p := d.profiles.value[name];
      assert (forall i | 0 <= i < |p.artifacts| :: ArtifactAllowed(d, p.artifacts[i].name))
        <==> forall a | a in p.artifacts :: a.name in d.policy.value.allowedArtifacts;
    }
  }

  /** A call is admitted exactly when its handler's gates hold; never on a read-only server. */
  lemma AdmitExactly(d: Deps, x: Input)
    ensures Admit(d, x).Admitted? <==> Gated(d, x)
  {
    match x
    case CollectProfileIn(_, _, profile) => UsableProfiles(d, profile);
    case StartProfileHuntIn(_, profile, _, _) => UsableProfiles(d, profile);
    case HuntIocIn(c, kind, value, scope, _) =>
      BuiltFromHash(d.valid, c.caseID, c.reason, c.requester, kind, value, scope);
    case _ =>
  }

  function OpOf(w: Write): (op: BackendOp) {
    match w
    case CollectArtifact(_, _, _) => CollectOp
    case CancelFlow(_, _) => CancelFlowOp
    case DownloadUpload(_, _, _, _) => DownloadOp
    case StartHunt(_, _, _, _) => StartHuntOp
    case CancelHunt(_) => CancelHuntOp
  }

  /** The backend operation a tool needs. */
  function ToolOp(x: Input): (op: BackendOp) {
    match x
    case CollectArtifactIn(_, _, _, _) => CollectOp
    case CollectProfileIn(_, _, _) => CollectOp
    case CancelFlowIn(_, _, _) => CancelFlowOp
    case DownloadIn(_, _, _, _) => DownloadOp
    case StartHuntIn(_, _, _, _, _) => StartHuntOp
    case StartProfileHuntIn(_, _, _, _) => StartHuntOp
    case CancelHuntIn(_, _) => CancelHuntOp
    case HuntIocIn(_, _, _, _, _) => StartHuntOp
  }

  function ScopeIDs(x: Input): (ids: seq<string>) {
    if x.StartHuntIn? || x.StartProfileHuntIn? || x.HuntIocIn? then x.scope.clientIDs else []
  }

  /** Every write of the plan is of the kind the backend is asked about. */
  ghost predicate OpsFit(plan: seq<Write>, op: BackendOp) {
    forall i | 0 <= i < |plan| :: OpOf(plan[i]) == op
  }

  /** The backend is asked about what will be done, and about the scope it will be done in. */
  lemma AdmittedOps(d: Deps, x: Input)
    requires Admit(d, x).Admitted?
    ensures Admit(d, x).op == ToolOp(x) && Admit(d, x).scopeIDs == ScopeIDs(x) && OpsFit(Admit(d, x).plan, ToolOp(x))
  {
  }

  /** A profile call plans exactly one write per artifact of the profile, in order; any other call
      exactly one. */
  lemma PlanFollowsInput(d: Deps, x: Input)
    requires Admit(d, x).Admitted?
    ensures !x.CollectProfileIn? && !x.StartProfileHuntIn? ==> |Admit(d, x).plan| == 1
    ensures x.CollectProfileIn? || x.StartProfileHuntIn? ==>
              && ProfileUsable(d, x.profile)
              && var artifacts, plan := d.profiles.value[x.profile].artifacts, Admit(d, x).plan;
                 && |plan| == |artifacts|
                 && forall i | 0 <= i < |artifacts| :: PlannedFor(d, x, artifacts[i], plan[i])
  {
    if x.CollectProfileIn? || x.StartProfileHuntIn? { UsableProfiles(d, x.profile); }
  }

  ghost predicate PlannedFor(d: Deps, x: Input, a: ProfileArtifact, w: Write)
    requires x.CollectProfileIn? || x.StartProfileHuntIn?
  {
    if x.CollectProfileIn? then w == CollectArtifact(x.clientID, a.name, a.parameters)
    else w == StartHunt(a.name, a.parameters, x.scope, ClientLimit(d, x.maxClients))
  }

  /** The client limit in terms of the configuration: never above a configured maximum or 100, the
      requested number when it is in that range, and that maximum otherwise. */
  lemma LimitRule(d: Deps, requested: int)
    ensures var configured := if d.policy.Some? then d.policy.value.maxHuntClients else 0;
            var max := if configured > 0 then configured else 100;
            ClientLimit(d, requested) == if 1 <= requested <= max then requested else max
  {
  }

  // ----- which calls an approval fits

  /** Two calls ask for the same thing: the same tool and case, and everything that says what is to
      be done and to whom; not who asks, why, under which reference or with which client limit. */
  ghost predicate SameAsk(x: Input, y: Input) {
    && x.common.caseID == y.common.caseID
    && match x
       case CollectArtifactIn(_, clientID, artifact, parameters) =>
         y.CollectArtifactIn? && y.clientID == clientID && y.artifact == artifact && y.parameters == parameters
       case CollectProfileIn(_, clientID, profile) =>
         y.CollectProfileIn? && y.clientID == clientID && y.profile == profile
       case CancelFlowIn(_, clientID, flowID) => y.CancelFlowIn? && y.clientID == clientID && y.flowID == flowID
       case DownloadIn(_, clientID, flowID, uploadName) =>
         y.DownloadIn? && y.clientID == clientID && y.flowID == flowID && y.uploadName == uploadName
       case StartHuntIn(_, artifact, parameters, scope, _) =>
         y.StartHuntIn? && y.artifact == artifact && y.parameters == parameters && SameScope(scope, y.scope)
       case StartProfileHuntIn(_, profile, scope, _) =>
         y.StartProfileHuntIn? && y.profile == profile && SameScope(scope, y.scope)
       case CancelHuntIn(_, huntID) => y.CancelHuntIn? && y.huntID == huntID
       case HuntIocIn(_, _, value, scope, _) => y.HuntIocIn? && y.value == value && SameScope(scope, y.scope)
  }

  ghost predicate SameScope(a: Scope, b: Scope) {
    a.labelName == b.labelName && a.all == b.all && multiset(a.clientIDs) == multiset(b.clientIDs)
  }

  function ToolName(x: Input): (name: string) {
    match x
    case CollectArtifactIn(_, _, _, _) => "collect_artifact"
    case CollectProfileIn(_, _, _) => "collect_dfir_profile"
    case CancelFlowIn(_, _, _) => "cancel_flow"
    case DownloadIn(_, _, _, _) => "download_flow_upload"
    case StartHuntIn(_, _, _, _, _) => "start_hunt"
    case StartProfileHuntIn(_, _, _, _) => "start_dfir_hunt"
    case CancelHuntIn(_, _) => "cancel_hunt"
    case HuntIocIn(_, _, _, _, _) => "hunt_ioc"
  }

  lemma CandidateOf(d: Deps, x: Input)
    requires Admit(d, x).Admitted?
    ensures Admit(d, x).candidate.operation == ToolName(x) && Admit(d, x).candidate.caseID == x.common.caseID
  {
  }

  lemma SameTool(x: Input, y: Input)
    ensures ToolName(x) == ToolName(y) <==>
              || (x.CollectArtifactIn? && y.CollectArtifactIn?) || (x.CollectProfileIn? && y.CollectProfileIn?)
              || (x.CancelFlowIn? && y.CancelFlowIn?) || (x.DownloadIn? && y.DownloadIn?)
              || (x.StartHuntIn? && y.StartHuntIn?) || (x.StartProfileHuntIn? && y.StartProfileHuntIn?)
              || (x.CancelHuntIn? && y.CancelHuntIn?) || (x.HuntIocIn? && y.HuntIocIn?)
  {
    assert "cancel_flow"[7] != "cancel_hunt"[7];
  }

  lemma IocCandidate(d: Deps, x: Input)
    requires Admit(d, x).Admitted? && x.HuntIocIn?
    ensures ClassifyHash(x.value).Some?
    ensures Admit(d, x).candidate.parameters == map[ListParam(ClassifyHash(x.value).value) := x.value]
    ensures Admit(d, x).candidate.artifact == "Generic.Detection.HashHunter"
    ensures var r := Admit(d, x).candidate;
            r.clientIDs == x.scope.clientIDs && r.labelName == x.scope.labelName && r.targetAll == x.scope.all
  {
  }

  lemma IocsMatch(d: Deps, x: Input, e: Deps, y: Input)
    requires Admit(d, x).Admitted? && Admit(e, y).Admitted? && x.HuntIocIn? && y.HuntIocIn?
    ensures SameTarget(Admit(d, x).candidate, Admit(e, y).candidate) <==> SameAsk(x, y)
  {
    IocCandidate(d, x);
    IocCandidate(e, y);
    SameHashParameter(x.value, y.value);
  }

  lemma OthersMatch(d: Deps, x: Input, e: Deps, y: Input)
    requires Admit(d, x).Admitted? && Admit(e, y).Admitted? && ToolName(x) == ToolName(y) && !x.HuntIocIn?
        && !y.HuntIocIn?
    ensures SameTarget(Admit(d, x).candidate, Admit(e, y).candidate) <==> SameAsk(x, y)
  {
    SameTool(x, y);
  }

  /** An approval made for one admitted call fits another exactly when both ask for the same thing,
      whatever the configurations of their servers. */
  lemma CandidatesMatch(d: Deps, x: Input, e: Deps, y: Input)
    requires Admit(d, x).Admitted? && Admit(e, y).Admitted?
    ensures SameTarget(Admit(d, x).candidate, Admit(e, y).candidate) <==> SameAsk(x, y)
  {
    CandidateOf(d, x);
    CandidateOf(e, y);
    SameTool(x, y);
    if ToolName(x) == ToolName(y) {
      if x.HuntIocIn? { IocsMatch(d, x, e, y); } else { OthersMatch(d, x, e, y); }
    }
  }

  /** `backendOperationReady` and then `huntScopeBackendReady`. */
  predicate BackendReady(d: Deps, op: BackendOp, scopeIDs: seq<string>) {
    d.client && d.supports(op) && ScopeReady(d.realWrites, scopeIDs)
  }

  // ----- verifyApproval

  /** `RequestFingerprint` is the digest of the request's byte stream. */
  ghost predicate Hashes(d: Deps, digest: string -> string) {
    forall r: Request :: d.fingerprint(r) == digest(Stream(r))
  }

  /** `verifyApproval` lets the call through. */
  predicate Approves(d: Deps, answer: Answer, candidate: Request) {
    && answer.Found?
    && d.fingerprint(answer.status.request) == d.fingerprint(candidate)
    && answer.status.decision.Some? && answer.status.decision.value.approved
    && !answer.status.consumed && !answer.status.expired
  }

  /** A stored record lets a call through exactly when it matches, is approved, unused and not too old. */
  lemma ApprovesExactly(d: Deps, m: Store, ref: string, now: int, ttl: int, candidate: Request)
    ensures Approves(d, Atomic(m, Get(ref), now, ttl).1, candidate) <==>
              && ref in m && d.fingerprint(m[ref].request) == d.fingerprint(candidate)
              && m[ref].decision.Some? && m[ref].decision.value.approved && !m[ref].consumed
              && now <= m[ref].request.createdAt + ttl
  {
  }

  /** The backend is ready exactly when there is a client that supports the operation and, in real
      mode, the scope names no clients. */
  lemma ReadyExactly(d: Deps, op: BackendOp, ids: seq<string>)
    ensures BackendReady(d, op, ids) <==> d.client && d.supports(op) && (d.realWrites ==> ids == [])
  {
  }

  // ----- what an approved request authorizes

  ghost predicate ProfileHolds(d: Deps, profile: string, artifact: string, parameters: map<string, string>) {
    && d.profiles.Some? && profile in d.profiles.value
    && ProfileArtifact(artifact, parameters) in d.profiles.value[profile].artifacts
  }

  /** Request `r` covers the write `w`: same client, same artifact and parameters or a member
      of the named profile, same flow, upload or hunt, same scope, and always within policy. */
  ghost predicate Authorizes(d: Deps, r: Request, w: Write) {
    match w
    case CollectArtifact(clientID, artifact, parameters) =>
      && clientID == r.clientID && ArtifactAllowed(d, artifact)
      && (|| (r.operation == "collect_artifact" && artifact == r.artifact && parameters == r.parameters)
          || (r.operation == "collect_dfir_profile" && ProfileHolds(d, r.profile, artifact, parameters)))
    case CancelFlow(clientID, flowID) =>
      r.operation == "cancel_flow" && clientID == r.clientID && flowID == r.flowID
    case DownloadUpload(clientID, flowID, uploadName, maxBytes) =>
      r.operation == "download_flow_upload" && clientID == r.clientID && flowID == r.flowID
          && uploadName == r.uploadName && maxBytes == d.maxUploadBytes
    case StartHunt(artifact, parameters, scope, maxClients) =>
      && ArtifactAllowed(d, artifact) && 1 <= maxClients <= MaxHuntClients(d)
      && WellScoped(d.valid, scope) && AllGate(d, scope.all)
      && scope.labelName == r.labelName && scope.all == r.targetAll
          && multiset(scope.clientIDs) == multiset(r.clientIDs)
      && (|| (r.operation in {"start_hunt", "hunt_ioc"} && artifact == r.artifact && parameters == r.parameters)
          || (r.operation == "start_dfir_hunt" && ProfileHolds(d, r.profile, artifact, parameters)))
    case CancelHunt(huntID) => r.operation == "cancel_hunt" && huntID == r.huntID
  }

  /** Everything an admitted call plans to do is covered by the request it asks the approval
      to match, and there is always something to do. */
  lemma PlanAuthorized(d: Deps, x: Input)
    requires Admit(d, x).Admitted?
    ensures Admit(d, x).plan != []
    ensures forall i | 0 <= i < |Admit(d, x).plan| :: Authorizes(d, Admit(d, x).candidate, Admit(d, x).plan[i])
  {
    match x
    case CollectArtifactIn(c, clientID, artifact, parameters) =>
    case CollectProfileIn(c, clientID, profile) => CollectPlanAuthorized(d, c, clientID, profile);
    case CancelFlowIn(c, clientID, flowID) =>
    case DownloadIn(c, clientID, flowID, uploadName) =>
    case StartHuntIn(c, artifact, parameters, scope, maxClients) =>
    case StartProfileHuntIn(c, profile, scope, maxClients) => HuntPlanAuthorized(d, c, profile, scope, maxClients);
    case CancelHuntIn(c, huntID) =>
    case HuntIocIn(c, kind, value, scope, maxClients) =>
      var r := Admit(d, x).candidate;
      assert r.operation == "hunt_ioc" && WellScoped(d.valid, scope);
  }

  lemma CollectPlanAuthorized(d: Deps, c: Common, clientID: string, profile: string)
    requires Admit(d, CollectProfileIn(c, clientID, profile)).Admitted?
    ensures Admit(d, CollectProfileIn(c, clientID, profile)).plan != []
    ensures var a := Admit(d, CollectProfileIn(c, clientID, profile));
            forall i | 0 <= i < |a.plan| :: Authorizes(d, a.candidate, a.plan[i])
  {
  }

  lemma HuntPlanAuthorized(d: Deps, c: Common, profile: string, scope: Scope, maxClients: int)
    requires Admit(d, StartProfileHuntIn(c, profile, scope, maxClients)).Admitted?
    ensures Admit(d, StartProfileHuntIn(c, profile, scope, maxClients)).plan != []
    ensures var a := Admit(d, StartProfileHuntIn(c, profile, scope, maxClients));
            forall i | 0 <= i < |a.plan| :: Authorizes(d, a.candidate, a.plan[i])
  {
  }

  /** Requests with the same target authorize the same writes. */
  lemma TargetDecides(d: Deps, a: Request, b: Request, w: Write)
    requires SameTarget(a, b)
    ensures Authorizes(d, a, w) <==> Authorizes(d, b, w)
  {
  }

  /** The hunts of a plan use the scope whose client ids the pre-consume check looks at. */
  ghost predicate ScopesChecked(plan: seq<Write>, scopeIDs: seq<string>) {
    forall i | 0 <= i < |plan| :: plan[i].StartHunt? ==> plan[i].scope.clientIDs == scopeIDs
  }

  lemma AdmitScopes(d: Deps, x: Input)
    requires Admit(d, x).Admitted?
    ensures ScopesChecked(Admit(d, x).plan, Admit(d, x).scopeIDs)
  {
  }

  /** Two different byte streams with the same digest. */
  ghost predicate Collision(digest: string -> string, a: string, b: string) {
    a != b && digest(a) == digest(b)
  }

  /** What a fingerprint match is worth: the same target, or a collision of the digest. */
  lemma MatchMeansTarget(d: Deps, digest: string -> string, stored: Request, candidate: Request)
    requires Hashes(d, digest) && d.fingerprint(stored) == d.fingerprint(candidate)
    ensures SameTarget(stored, candidate) || Collision(digest, Stream(stored), Stream(candidate))
  {
    StreamIdentifiesTarget(stored, candidate);
  }
}
