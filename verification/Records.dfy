/** The approval store as one atomic map: what each operation of
internal/approval/filestore.go does to the records it has loaded. */
module Records {
  import opened Text
  import opened Fingerprint

  datatype Decision = Decision(requestID: string, approved: bool, approvedBy: string, decidedAt: int, note: string)

  datatype Record = Record(request: Request, decision: Option<Decision>, consumed: bool)

  type Store = map<string, Record>

  datatype Status = Status(request: Request, decision: Option<Decision>, consumed: bool, expired: bool)

  datatype Error =
    | ReferenceRequired | CaseIDRequired | ReasonRequired | RequesterRequired | ApprovedByRequired
    | DuplicateReference | RequestNotFound | AlreadyDecided | AlreadyConsumed
    | Unavailable  // lock not acquired, file unreadable or not written

  datatype Op = Create(req: Request) | Decide(dec: Decision) | Get(id: string) | Consume(id: string)

  datatype Answer = Created(request: Request) | Done | Found(status: Status) | Failed(error: Error)

  /** What the function run under the lock asks for: an answer, or a save and then an answer. */
  datatype Effect = Reply(answer: Answer) | Save(records: Store, answer: Answer)

  /** The checks made before any lock is taken. */
  function Precheck(op: Op): (e: Option<Error>) {
    match op
    case Create(req) =>
      if req.id == "" then Some(ReferenceRequired)
      else if req.caseID == "" then Some(CaseIDRequired)
      else if req.reason == "" then Some(ReasonRequired)
      else if req.requester == "" then Some(RequesterRequired)
      else None
    case Decide(dec) => if dec.approvedBy == "" then Some(ApprovedByRequired) else None
    case _ => None
  }

  predicate Expired(req: Request, now: int, ttl: int) {
    now - req.createdAt > ttl
  }

  /** The function each operation runs on the freshly loaded records. */
  function Body(m: Store, op: Op, now: int, ttl: int): (e: Effect) {
    match op
    case Create(req) =>
      if req.id in m then Reply(Failed(DuplicateReference))
      else
        var stamped := if req.createdAt == 0 then req.(createdAt := now) else req;
        Save(m[req.id := Record(stamped, None, false)], Created(stamped))
    case Decide(dec) =>
      if dec.requestID !in m then Reply(Failed(RequestNotFound))
      else if m[dec.requestID].decision.Some? then Reply(Failed(AlreadyDecided))
      else
        var stamped := if dec.decidedAt == 0 then dec.(decidedAt := now) else dec;
        Save(m[dec.requestID := m[dec.requestID].(decision := Some(stamped))], Done)
    case Get(id) =>
      if id !in m then Reply(Failed(RequestNotFound))
      else Reply(Found(Status(m[id].request, m[id].decision, m[id].consumed, Expired(m[id].request, now, ttl))))
    case Consume(id) =>
      if id !in m then Reply(Failed(RequestNotFound))
      else if m[id].consumed then Reply(Failed(AlreadyConsumed))
      else Save(m[id := m[id].(consumed := true)], Done)
  }

  /** The whole operation in one step: the records after it and its answer. */
  function Atomic(m: Store, op: Op, now: int, ttl: int): (r: (Store, Answer)) {
    match Precheck(op)
    case Some(e) => (m, Failed(e))
    case None =>
      match Body(m, op, now, ttl)
      case Reply(answer) => (m, answer)
      case Save(records, answer) => (records, answer)
  }

  /** Records are never removed, requests and decisions never change, consumption sticks. */
  ghost predicate Extends(m: Store, n: Store) {
    forall id | id in m ::
      && id in n
      && n[id].request == m[id].request
      && (m[id].decision.Some? ==> n[id].decision == m[id].decision)
      && (m[id].consumed ==> n[id].consumed)
  }

  lemma ExtendsTransitive(m: Store, n: Store, o: Store)
    requires Extends(m, n) && Extends(n, o)
    ensures Extends(m, o)
  {
  }

  lemma AtomicExtends(m: Store, op: Op, now: int, ttl: int)
    ensures Extends(m, Atomic(m, op, now, ttl).0)
  {
  }

  /** Every decision names the human who made it. */
  ghost predicate DecidersNamed(m: Store) {
    forall id | id in m :: m[id].decision.Some? ==> m[id].decision.value.approvedBy != ""
  }

  lemma AtomicKeepsDeciders(m: Store, op: Op, now: int, ttl: int)
    requires DecidersNamed(m)
    ensures DecidersNamed(Atomic(m, op, now, ttl).0)
  {
  }

  /** A reference that `Consume` answers with success was there, unconsumed, and is consumed after. */
  lemma ConsumeOnce(m: Store, id: string, now: int, ttl: int)
    ensures Atomic(m, Consume(id), now, ttl).1 == Done <==> id in m && !m[id].consumed
    ensures Atomic(m, Consume(id), now, ttl).1 == Done ==>
              Atomic(m, Consume(id), now, ttl).0 == m[id := m[id].(consumed := true)]
  {
  }

  // ----- IsApproved

  /** `IsApproved` reads its verdict off the answer of `Get`; None is an error. */
  function Verdict(answer: Answer): (v: Option<bool>) {
    match answer
    case Found(st) => Some(!st.consumed && !st.expired && st.decision.Some? && st.decision.value.approved)
    case Failed(RequestNotFound) => Some(false)
    case _ => None
  }

  function IsApproved(m: Store, id: string, now: int, ttl: int): (b: bool) {
    Verdict(Atomic(m, Get(id), now, ttl).1) == Some(true)
  }

  /** The answers for one reference over time are false, then true, then false for
      good: once true has turned false it never comes back. */
  lemma ApprovalNeverReturns(m1: Store, m2: Store, m3: Store, id: string, t1: int, t2: int, t3: int, ttl: int)
    requires Extends(m1, m2) && Extends(m2, m3) && t1 <= t2 <= t3
    requires IsApproved(m1, id, t1, ttl) && !IsApproved(m2, id, t2, ttl)
    ensures !IsApproved(m3, id, t3, ttl)
  {
  }

  // ----- what each operation stores and answers

  /** The stored decision is the one given; only a missing time is filled in. */
  ghost predicate SameDecision(stored: Decision, given: Decision, now: int) {
    && stored.requestID == given.requestID && stored.approved == given.approved
    && stored.approvedBy == given.approvedBy && stored.note == given.note
    && stored.decidedAt == if given.decidedAt != 0 then given.decidedAt else now
  }

  /** The stored request is the one given; only a missing time is filled in. */
  ghost predicate SameRequest(stored: Request, given: Request, now: int) {
    && stored.(createdAt := 0) == given.(createdAt := 0)
    && stored.createdAt == if given.createdAt != 0 then given.createdAt else now
  }

  ghost predicate OnlyAt(m: Store, n: Store, id: string) {
    id in n && n.Keys == m.Keys + {id} && forall x | x in m && x != id :: n[x] == m[x]
  }

  /** A decision is stored exactly once, on a present and undecided request, as it was given, and
      nothing else changes. */
  lemma DecideStores(m: Store, dec: Decision, now: int, ttl: int)
    ensures var (n, answer) := Atomic(m, Decide(dec), now, ttl);
            && (answer == Done <==> dec.approvedBy != "" && dec.requestID in m && m[dec.requestID].decision.None?)
            && (answer == Failed(ApprovedByRequired) <==> dec.approvedBy == "")
            && (answer == Failed(RequestNotFound) <==> dec.approvedBy != "" && dec.requestID !in m)
            && (answer == Failed(AlreadyDecided) <==>
                  dec.approvedBy != "" && dec.requestID in m && m[dec.requestID].decision.Some?)
            && (answer != Done ==> n == m)
            && (answer == Done ==>
                  && OnlyAt(m, n, dec.requestID) && n[dec.requestID].request == m[dec.requestID].request
                  && n[dec.requestID].consumed == m[dec.requestID].consumed
                  && n[dec.requestID].decision.Some? && SameDecision(n[dec.requestID].decision.value, dec, now))
  {
  }

  /** A request is stored exactly when its fields are there and its reference is new, as it was
      given, undecided and unused, and nothing else changes. */
  lemma CreateStores(m: Store, req: Request, now: int, ttl: int)
    ensures var (n, answer) := Atomic(m, Create(req), now, ttl);
            var complete := req.id != "" && req.caseID != "" && req.reason != "" && req.requester != "";
            && (answer.Created? <==> complete && req.id !in m)
            && (answer == Failed(DuplicateReference) <==> complete && req.id in m)
            && (answer == Failed(ReferenceRequired) <==> req.id == "")
            && (answer == Failed(CaseIDRequired) <==> req.id != "" && req.caseID == "")
            && (answer == Failed(ReasonRequired) <==> req.id != "" && req.caseID != "" && req.reason == "")
            && (answer == Failed(RequesterRequired) <==>
                  req.id != "" && req.caseID != "" && req.reason != "" && req.requester == "")
            && (!answer.Created? ==> n == m)
            && (answer.Created? ==>
                  && OnlyAt(m, n, req.id) && n[req.id] == Record(answer.request, None, false)
                  && SameRequest(answer.request, req, now))
  {
  }

  /** Get changes nothing and answers with the record as it is; it is expired exactly when more than
      the time to live has passed since it was created. */
  lemma GetTells(m: Store, id: string, now: int, ttl: int)
    ensures var (n, answer) := Atomic(m, Get(id), now, ttl);
            && n == m && (answer.Found? <==> id in m) && (answer == Failed(RequestNotFound) <==> id !in m)
            && (id in m ==>
                  && answer.status.request == m[id].request && answer.status.decision == m[id].decision
                  && answer.status.consumed == m[id].consumed
                  && (answer.status.expired <==> now > m[id].request.createdAt + ttl))
  {
  }

  /** IsApproved is true exactly of a present, approved, unused record that is not too old. */
  lemma IsApprovedExactly(m: Store, id: string, now: int, ttl: int)
    ensures IsApproved(m, id, now, ttl) <==>
              && id in m && m[id].decision.Some? && m[id].decision.value.approved && !m[id].consumed
              && now <= m[id].request.createdAt + ttl
  {
  }
}
