/** Hunt scopes: their validation (internal/validation/scope.go) and their translation
into what Velociraptor can express (internal/velociraptor/grpcclient_hunts.go). */
module Hunts {
  import opened Text
  import opened Backend

  /** Which syntax check a value goes through. */
  datatype Field =
    | ClientIDField | CaseIDField | ReasonField | RequesterField | ReferenceField | ArtifactField
    | FlowIDField | UploadNameField | ProfileField | HuntIDField | LabelField
    | IPField | DomainField | ProcessField | PathField

  type Validator = (Field, string) -> bool

  /** Exactly one targeting mode is set and everything in it is well formed. */
  ghost predicate WellScoped(valid: Validator, s: Scope) {
    && (|| (s.clientIDs != [] && s.labelName == "" && !s.all)
        || (s.clientIDs == [] && s.labelName != "" && !s.all)
        || (s.clientIDs == [] && s.labelName == "" && s.all))
    && (forall i | 0 <= i < |s.clientIDs| :: valid(ClientIDField, s.clientIDs[i]))
    && (s.labelName != "" ==> valid(LabelField, s.labelName))
  }

  /** `ValidateHuntScope`. */
  method ValidateHuntScope(valid: Validator, s: Scope) returns (ok: bool)
    ensures ok <==> WellScoped(valid, s)
  {
    var modes := 0;
    if |s.clientIDs| > 0 { modes := modes + 1; }
    if s.labelName != "" { modes := modes + 1; }
    if s.all { modes := modes + 1; }
    if modes != 1 { return false; }
    var i := 0;
    while i < |s.clientIDs|
      invariant 0 <= i <= |s.clientIDs|
      invariant forall j | 0 <= j < i :: valid(ClientIDField, s.clientIDs[j])
    {
      if !valid(ClientIDField, s.clientIDs[i]) { return false; }
      i := i + 1;
    }
    if s.labelName != "" && !valid(LabelField, s.labelName) { return false; }
    return true;
  }

  /** A hunt condition in Velociraptor's terms. */
  datatype Condition = Everyone | Labels(labels: seq<string>)

  datatype Hunt = Hunt(artifact: string, parameters: map<string, string>, condition: Condition, clientLimit: int)

  /** `huntConditionFromScope`; None is the unsupported explicit client list. */
  function HuntCondition(s: Scope): (c: Option<Condition>) {
    if |s.clientIDs| > 0 then None
    else if s.labelName != "" then Some(Labels([s.labelName]))
    else Some(Everyone)
  }

  /** `grpcClient.StartHunt` up to the CreateHunt call it makes, if it makes one. */
  function CreateHunt(w: Write): (h: Option<Hunt>)
    requires w.StartHunt?
  {
    var c := HuntCondition(w.scope);
    if c.None? then None else Some(Hunt(w.artifact, w.parameters, c.value, w.maxClients))
  }

  /** `huntScopeBackendReady`: the check made before an approval is spent. */
  function ScopeReady(realWrites: bool, clientIDs: seq<string>): (ok: bool) {
    !(realWrites && |clientIDs| > 0)
  }

  /** In real mode the check agrees with the translator on every scope, and on a validated
      scope the translation means what the scope says. */
  lemma ScopeCheckAgrees(valid: Validator, s: Scope)
    ensures ScopeReady(true, s.clientIDs) <==> HuntCondition(s).Some?
    ensures ScopeReady(false, s.clientIDs)
    ensures WellScoped(valid, s) && ScopeReady(true, s.clientIDs) ==>
              && (HuntCondition(s) == Some(Everyone) <==> s.all)
              && (!s.all ==> HuntCondition(s) == Some(Labels([s.labelName])))
  {
  }
}
