/** Indicator hunts: from an indicator to the one request that stands for it
(internal/mcpserver/tools_ioc.go, internal/vql/render.go, internal/validation/ioc.go). */
module Ioc {
  import opened Text
  import opened Fingerprint
  import opened Backend
  import opened Hunts

  predicate IsHex(c: char) {
    '0' <= c <= '9' || 'a' <= c <= 'f' || 'A' <= c <= 'F'
  }

  datatype HashKind = MD5 | SHA1 | SHA256

  /** `validation.Hash`. */
  function ClassifyHash(s: string): (k: Option<HashKind>) {
    if exists i | 0 <= i < |s| :: !IsHex(s[i]) then None
    else if |s| == 32 then Some(MD5)
    else if |s| == 40 then Some(SHA1)
    else if |s| == 64 then Some(SHA256)
    else None
  }

  function ListParam(k: HashKind): string {
    match k case MD5 => "MD5List" case SHA1 => "SHA1List" case SHA256 => "SHA256List"
  }

  predicate ValidIoc(valid: Validator, kind: string, value: string) {
    if kind == "hash" then ClassifyHash(value).Some?
    else if kind == "ip" then valid(IPField, value)
    else if kind == "domain" then valid(DomainField, value)
    else if kind == "process" then valid(ProcessField, value)
    else if kind == "path" then valid(PathField, value)
    else false
  }

  datatype Template = HashHunt | IPHunt | DomainHunt | ProcessHunt | PathHunt

  function TemplateFor(kind: string): (t: Option<Template>) {
    if kind == "hash" then Some(HashHunt)
    else if kind == "ip" then Some(IPHunt)
    else if kind == "domain" then Some(DomainHunt)
    else if kind == "process" then Some(ProcessHunt)
    else if kind == "path" then Some(PathHunt)
    else None
  }

  /** `Bind`: only the hash template has an artifact behind it. */
  function Bind(t: Template, value: string): (r: Option<(string, map<string, string>)>) {
    if value == "" then None
    else if t == HashHunt && ClassifyHash(value).Some? then
      Some(("Generic.Detection.HashHunter", map[ListParam(ClassifyHash(value).value) := value]))
    else None
  }

  /** `BuildHuntIOCApprovalRequest`. */
  ghost function BuildRequest(valid: Validator, caseID: string, reason: string, requester: string,
                              kind: string, value: string, scope: Scope): (r: Option<Request>) {
    if !WellScoped(valid, scope) || !ValidIoc(valid, kind, value) then None
    else
      var t := TemplateFor(kind);
      if t.None? then None
      else
        var b := Bind(t.value, value);
        if b.None? then None
        else Some(Request("", "hunt_ioc", caseID, reason, requester, "", b.value.0, b.value.1, "", "", "", "",
                          scope.clientIDs, scope.labelName, scope.all, 0))
  }

  /** A hash is 32, 40 or 64 hexadecimal digits, and the length says which kind. */
  lemma HashKinds(s: string)
    ensures var hex := forall i | 0 <= i < |s| :: '0' <= s[i] <= '9' || 'a' <= s[i] <= 'f' || 'A' <= s[i] <= 'F';
            && (ClassifyHash(s).Some? <==> hex && |s| in {32, 40, 64})
            && (ClassifyHash(s).Some? ==>
                  ListParam(ClassifyHash(s).value) ==
                    if |s| == 32 then "MD5List" else if |s| == 40 then "SHA1List" else "SHA256List")
  {
  }

  /** Only hash indicators can be built; the request is for the hash-hunting artifact with the value
      under the parameter of its kind, for this case and scope, and holds nothing else. */
  lemma BuiltFromHash(valid: Validator, caseID: string, reason: string, requester: string, kind: string, value: string,
                      scope: Scope)
    ensures BuildRequest(valid, caseID, reason, requester, kind, value, scope).Some? <==>
              WellScoped(valid, scope) && kind == "hash" && ClassifyHash(value).Some?
    ensures BuildRequest(valid, caseID, reason, requester, kind, value, scope).Some? ==>
              var r := BuildRequest(valid, caseID, reason, requester, kind, value, scope).value;
              var list := if |value| == 32 then "MD5List" else if |value| == 40 then "SHA1List" else "SHA256List";
              && r.artifact == "Generic.Detection.HashHunter" && r.parameters == map[list := value]
              && r.operation == "hunt_ioc" && r.caseID == caseID && r.reason == reason && r.requester == requester
              && r.clientIDs == scope.clientIDs && r.labelName == scope.labelName && r.targetAll == scope.all
              && r.clientID == "" && r.profile == "" && r.huntID == "" && r.flowID == "" && r.uploadName == ""
  {
    HashKinds(value);
  }

  lemma SameHashParameter(v: string, w: string)
    requires ClassifyHash(v).Some? && ClassifyHash(w).Some?
    ensures map[ListParam(ClassifyHash(v).value) := v] == map[ListParam(ClassifyHash(w).value) := w] <==> v == w
  {
    var m, n := map[ListParam(ClassifyHash(v).value) := v], map[ListParam(ClassifyHash(w).value) := w];
    assert m.Values == {v} && n.Values == {w} by {
      assert ListParam(ClassifyHash(v).value) in m.Keys && ListParam(ClassifyHash(w).value) in n.Keys;
    }
    assert {v} == {w} ==> v in {w};
  }

  lemma BuiltParameters(valid: Validator, caseID: string, reason: string, requester: string, kind: string,
                        value: string, scope: Scope)
    requires BuildRequest(valid, caseID, reason, requester, kind, value, scope).Some?
    ensures ClassifyHash(value).Some?
    ensures BuildRequest(valid, caseID, reason, requester, kind, value, scope).value.parameters
         == map[ListParam(ClassifyHash(value).value) := value]
  {
  }

  /** An approval stored for one indicator and scope passes the fingerprint check of a call
      exactly when case, value bytes, label and all-flag are the same and the client ids
      are the same up to order. */
  lemma ApprovalMatchesCall(valid: Validator, case1: string, reason1: string, requester1: string, kind1: string,
                            value1: string, scope1: Scope,
                            case2: string, reason2: string, requester2: string, kind2: string, value2: string,
                            scope2: Scope,
                            reference: string, createdAt: int)
    requires BuildRequest(valid, case1, reason1, requester1, kind1, value1, scope1).Some?
    requires BuildRequest(valid, case2, reason2, requester2, kind2, value2, scope2).Some?
    ensures var built := BuildRequest(valid, case1, reason1, requester1, kind1, value1, scope1).value;
            var stored := built.(id := reference, createdAt := createdAt);
            var candidate := BuildRequest(valid, case2, reason2, requester2, kind2, value2, scope2).value;
            Stream(stored) == Stream(candidate) <==>
              && case1 == case2 && value1 == value2
              && scope1.labelName == scope2.labelName && scope1.all == scope2.all
              && multiset(scope1.clientIDs) == multiset(scope2.clientIDs)
  {
    BuiltParameters(valid, case1, reason1, requester1, kind1, value1, scope1);
    BuiltParameters(valid, case2, reason2, requester2, kind2, value2, scope2);
    SameHashParameter(value1, value2);
    var built := BuildRequest(valid, case1, reason1, requester1, kind1, value1, scope1).value;
    var stored := built.(id := reference, createdAt := createdAt);
    var candidate := BuildRequest(valid, case2, reason2, requester2, kind2, value2, scope2).value;
    StreamIdentifiesTarget(stored, candidate);
  }
}
