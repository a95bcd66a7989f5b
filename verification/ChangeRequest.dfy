/**
 The review of change requests: drafts are submitted with a digest of their content, reviewers other
 than the requester decide once each, and a quorum or a denial settles the request. The approval
 evidence of an approved request is resolved from the stored rows. Time is whole milliseconds.
 */
module ChangeRequest {
  import opened Wrappers
  import opened CanonicalJson

  datatype Environment = Local | Development | Staging | Production

  datatype Risk = R0 | R1 | R2 | R3 | R4

  datatype Status = Draft | ReviewRequired | Approved | Denied | Executing

  datatype Choice = Approve | Deny

  /** What reviewers see and what the review digest covers; the payload is stored as canonical text. */
  datatype Content = Content(
    workspaceId: string, title: string, description: string, risk: Risk, environment: Environment,
    adapter: string, payloadText: string, requestedBy: string)

  datatype Request = Request(content: Content, status: Status, reviewDigest: Option<string>)

  datatype Approval = Approval(id: string, requestId: string, approverId: string, choice: Choice, digest: string, at: int)

  /** The tables; `approvals` in the order of insertion. */
  datatype State = State(
    workspaces: map<string, Environment>, requests: map<string, Request>, approvals: seq<Approval>)

  // ---- The digest of the reviewed content ----

  function EnvironmentName(e: Environment): string {
    match e
    case Local => "local" case Development => "development" case Staging => "staging" case Production => "production"
  }

  function RiskName(r: Risk): string {
    match r case R0 => "R0" case R1 => "R1" case R2 => "R2" case R3 => "R3" case R4 => "R4"
  }

  function Payload(c: Content): Option<Json> {
    var p := Decode(c.payloadText);
    if p.Some? && p.value.Obj? then p else None
  }

  function Subject(c: Content, payload: Json): Json {
    Obj([Member("adapter", Str(c.adapter)), Member("description", Str(c.description)),
         Member("environment", Str(EnvironmentName(c.environment))), Member("payload", payload),
         Member("requested_by", Str(c.requestedBy)), Member("risk", Str(RiskName(c.risk))),
         Member("schema", Str("change-request-review/v1")), Member("title", Str(c.title)),
         Member("workspace_id", Str(c.workspaceId))])
  }

  function ReviewDigest(sha: string -> string, c: Content): Result<string> {
    var p := Payload(c);
    if p.None? then Err("change request payload is not valid canonical JSON")
    else Ok(sha(Print(Subject(c, p.value))))
  }

  function PayloadDigest(sha: string -> string, c: Content): string {
    var p := Payload(c);
    sha(Print(Obj([Member("binding_type", Str("request-payload/v1")), Member("payload", if p.Some? then p.value else Null),
                   Member("schema_version", Num(1))])))
  }

  /** A content can be reviewed exactly when its payload is stored as the canonical text of an object. */
  lemma ReviewDigestIsExact(sha: string -> string, c: Content)
    ensures ReviewDigest(sha, c).Ok? <==> exists j: Json :: j.Obj? && Sorted(j) && Print(j) == c.payloadText
  {
    var p := Decode(c.payloadText);
    if p.Some? {
      DecodeInvertsPrint(p.value, c.payloadText);
    }
    forall j: Json | j.Obj? && Sorted(j) && Print(j) == c.payloadText ensures p == Some(j) {
      DecodeInvertsPrint(j, c.payloadText);
    }
  }

  /** The text that the payload digest is the digest of. */
  function PayloadText(j: Json): string {
    Print(Obj([Member("binding_type", Str("request-payload/v1")), Member("payload", j), Member("schema_version", Num(1))]))
  }

  /** Two contents with one payload digest have the same payload, or their payload texts collide. */
  lemma SameDigestSamePayload(sha: string -> string, a: Content, b: Content, p: Json, q: Json)
    requires Decode(a.payloadText) == Some(p) && Decode(b.payloadText) == Some(q) && p.Obj? && q.Obj?
    requires PayloadDigest(sha, a) == PayloadDigest(sha, b)
    ensures a.payloadText == b.payloadText || (PayloadText(p) != PayloadText(q) && sha(PayloadText(p)) == sha(PayloadText(q)))
  {
    if PayloadText(p) == PayloadText(q) {
      var ms := [Member("binding_type", Str("request-payload/v1")), Member("payload", p), Member("schema_version", Num(1))];
      var ns := [Member("binding_type", Str("request-payload/v1")), Member("payload", q), Member("schema_version", Num(1))];
      PrintIsInjective(Obj(ms), Obj(ns));
      assert ms[1] == ns[1];
      DecodeInvertsPrint(p, a.payloadText);
      DecodeInvertsPrint(q, b.payloadText);
    }
  }

  /** The text that the review digest of a content with a payload is the digest of. */
  function ReviewText(c: Content): string
    requires Payload(c).Some?
  {
    Print(Subject(c, Payload(c).value))
  }

  /** Two contents with one review digest are the same content, or their own review texts collide. */
  lemma SameDigestSameContent(sha: string -> string, a: Content, b: Content)
    requires ReviewDigest(sha, a).Ok? && ReviewDigest(sha, a) == ReviewDigest(sha, b)
    ensures Payload(a).Some? && Payload(b).Some?
    ensures a == b || (ReviewText(a) != ReviewText(b) && sha(ReviewText(a)) == sha(ReviewText(b)))
  {
    var p, q := Payload(a).value, Payload(b).value;
    if ReviewText(a) == ReviewText(b) {
      PrintIsInjective(Subject(a, p), Subject(b, q));
      SubjectIsInjective(a, p, b, q);
    }
  }

  lemma SubjectIsInjective(a: Content, p: Json, b: Content, q: Json)
    requires Payload(a) == Some(p) && Payload(b) == Some(q) && Subject(a, p) == Subject(b, q)
    ensures a == b
  {
    DecodeInvertsPrint(p, a.payloadText);
    DecodeInvertsPrint(q, b.payloadText);
    SameMembers(a, p, b, q);
    NamesAreDistinct(a.environment, b.environment, a.risk, b.risk);
  }

  lemma SameMembers(a: Content, p: Json, b: Content, q: Json)
    requires Subject(a, p) == Subject(b, q)
    ensures p == q && EnvironmentName(a.environment) == EnvironmentName(b.environment) && RiskName(a.risk) == RiskName(b.risk)
    ensures a.workspaceId == b.workspaceId && a.title == b.title && a.description == b.description
    ensures a.adapter == b.adapter && a.requestedBy == b.requestedBy
  {
    var ms, ns := Subject(a, p).members, Subject(b, q).members;
    assert ms[0] == ns[0] && ms[1] == ns[1] && ms[2] == ns[2] && ms[3] == ns[3] && ms[4] == ns[4];
    assert ms[5] == ns[5] && ms[7] == ns[7] && ms[8] == ns[8];
  }

  lemma NamesAreDistinct(e: Environment, e': Environment, r: Risk, r': Risk)
    requires EnvironmentName(e) == EnvironmentName(e') && RiskName(r) == RiskName(r')
    ensures e == e' && r == r'
  {
    assert RiskName(r)[1] == RiskName(r')[1];
    assert |EnvironmentName(e)| == |EnvironmentName(e')| && EnvironmentName(e)[0] == EnvironmentName(e')[0];
  }

  // ---- The approval policy ----

  datatype PolicyInput = PolicyInput(environment: Environment, risk: Risk)

  datatype Decision = Decision(
    policyVersion: string, profile: string, decision: string, authorizationMode: string,
    requiredApprovals: nat, requiredPermissions: seq<string>, distinctApprovers: nat,
    requesterMayApprove: bool, stepUpRequired: bool, reasonCodes: seq<string>)

  function Required(e: Environment): nat { if e == Production then 2 else 1 }

  function Reasons(i: PolicyInput): seq<string> {
    var environment := match i.environment
      case Local => "ENVIRONMENT_LOCAL" case Development => "ENVIRONMENT_DEVELOPMENT"
      case Staging => "ENVIRONMENT_STAGING" case Production => "ENVIRONMENT_PRODUCTION";
    var count := if i.environment == Production then "PRODUCTION_TWO_APPROVALS_REQUIRED"
                 else "NON_PRODUCTION_ONE_APPROVAL_REQUIRED";
    ["CURRENT_BEHAVIOR_COMPATIBILITY", environment, RiskName(i.risk) + "_CURRENTLY_NON_ENFORCING",
     "REQUESTER_SELF_APPROVAL_DENIED", count]
    + if i.environment == Production then ["PRODUCTION_EFFECTS_USE_SEPARATE_FAIL_CLOSED_GATE"] else []
  }

  function CurrentPolicy(i: PolicyInput): Decision {
    Decision("approval-policy/current-v1", "CURRENT_COMPATIBILITY", "ALLOW_AFTER_AUTHORIZATION",
             "INDEPENDENT_APPROVAL", Required(i.environment), ["approval.review"], Required(i.environment),
             false, false, Reasons(i))
  }

  type Evaluator = PolicyInput -> Decision

  /** The policy in force: the current one, or an injected evaluator as long as it agrees with it. */
  function ResolvePolicy(evaluator: Option<Evaluator>, i: PolicyInput): (r: Result<Decision>)
    ensures r.Ok? ==> r.value.requiredApprovals == Required(i.environment) && !r.value.requesterMayApprove
  {
    if evaluator.Some? && evaluator.value(i) != CurrentPolicy(i)
    then Err("approval policy evaluator diverged from current runtime behavior")
    else Ok(CurrentPolicy(i))
  }

  /** What the current policy decides: two independent approvals in production and one elsewhere. */
  lemma CurrentPolicyTells(i: PolicyInput)
    ensures var d := CurrentPolicy(i);
      && d.requiredApprovals == (if i.environment == Production then 2 else 1) && d.distinctApprovers == d.requiredApprovals
      && !d.requesterMayApprove && !d.stepUpRequired && d.requiredPermissions == ["approval.review"]
      && "REQUESTER_SELF_APPROVAL_DENIED" in d.reasonCodes
      && ("PRODUCTION_TWO_APPROVALS_REQUIRED" in d.reasonCodes <==> i.environment == Production)
      && ("NON_PRODUCTION_ONE_APPROVAL_REQUIRED" in d.reasonCodes <==> i.environment != Production)
      && ("PRODUCTION_EFFECTS_USE_SEPARATE_FAIL_CLOSED_GATE" in d.reasonCodes <==> i.environment == Production)
  {
    var d := CurrentPolicy(i);
    assert "REQUESTER_SELF_APPROVAL_DENIED" == d.reasonCodes[3];
    ReasonsDiffer(i);
  }

  lemma ReasonsDiffer(i: PolicyInput)
    ensures var codes := Reasons(i);
      && codes[4] == (if i.environment == Production then "PRODUCTION_TWO_APPROVALS_REQUIRED" else "NON_PRODUCTION_ONE_APPROVAL_REQUIRED")
      && (i.environment == Production ==> |codes| == 6 && codes[5] == "PRODUCTION_EFFECTS_USE_SEPARATE_FAIL_CLOSED_GATE")
      && (forall k | 0 <= k < |codes| && codes[k] == "PRODUCTION_TWO_APPROVALS_REQUIRED" :: i.environment == Production)
      && (forall k | 0 <= k < |codes| && codes[k] == "NON_PRODUCTION_ONE_APPROVAL_REQUIRED" :: i.environment != Production)
      && (forall k | 0 <= k < |codes| && codes[k] == "PRODUCTION_EFFECTS_USE_SEPARATE_FAIL_CLOSED_GATE" :: i.environment == Production)
  {
    var codes := Reasons(i);
    assert codes[0][0] == 'C' && codes[1][0] == 'E' && codes[2][0] == 'R' && codes[3][0] == 'R';
  }

  /** How contents are digested and how many approvals they need. */
  datatype Rules = Rules(digest: Content -> Result<string>, payloadDigest: Content -> string, quorum: PolicyInput -> Result<nat>)

  /** Whatever evaluator is injected, a quorum that is given is the current one. */
  ghost predicate SoundRules(rules: Rules) {
    forall i :: rules.quorum(i).Ok? ==> rules.quorum(i).value == Required(i.environment)
  }

  function Quorum(evaluator: Option<Evaluator>, i: PolicyInput): Result<nat> {
    var d := ResolvePolicy(evaluator, i);
    if d.Ok? then Ok(d.value.requiredApprovals) else Err(d.reason)
  }

  /** The rules of the service. */
  function ServiceRules(sha: string -> string, evaluator: Option<Evaluator>): Rules {
    Rules(c => ReviewDigest(sha, c), c => PayloadDigest(sha, c), i => Quorum(evaluator, i))
  }

  lemma ServiceRulesAreSound(sha: string -> string, evaluator: Option<Evaluator>)
    ensures SoundRules(ServiceRules(sha, evaluator))
  {
  }

  // ---- The operations ----

  /** The approvals of one request, in the order of insertion. */
  function Of(approvals: seq<Approval>, id: string): seq<Approval> {
    if approvals == [] then []
    else
      var last := approvals[|approvals| - 1];
      Of(approvals[..|approvals| - 1], id) + if last.requestId == id then [last] else []
  }

  function CountApproved(approvals: seq<Approval>): nat {
    if approvals == [] then 0
    else
      CountApproved(approvals[..|approvals| - 1])
      + if approvals[|approvals| - 1].choice == Approve then 1 else 0
  }

  predicate InWorkspace(s: State, c: Content) {
    c.workspaceId in s.workspaces && s.workspaces[c.workspaceId] == c.environment
  }

  function Create(s: State, id: string, c: Content): Result<State> {
    if c.workspaceId !in s.workspaces then Err("workspace not found")
    else if !InWorkspace(s, c) then Err("change request environment must match workspace environment")
    else if id in s.requests then Err("duplicate id")
    else Ok(s.(requests := s.requests[id := Request(c, Draft, None)]))
  }

  function Submit(rules: Rules, s: State, id: string): Result<State> {
    if id !in s.requests then Err("change request not found") else
    var r := s.requests[id];
    if !InWorkspace(s, r.content) then Err("change request environment does not match workspace")
    else if r.status != Draft then Err("only a draft can be submitted")
    else if r.reviewDigest.Some? then Err("draft review content binding must be empty")
    else
      var digest := rules.digest(r.content);
      if digest.Err? then Err(digest.reason)
      else Ok(s.(requests := s.requests[id := r.(status := ReviewRequired, reviewDigest := Some(digest.value))]))
  }

  /** The row a decision would insert is refused when its id or its reviewer is already there. */
  predicate Insertable(approvals: seq<Approval>, a: Approval) {
    forall b | b in approvals :: b.id != a.id && (b.requestId, b.approverId) != (a.requestId, a.approverId)
  }

  function NextStatus(s: State, a: Approval, required: nat): Status {
    if a.choice == Deny then Denied
    else if CountApproved(Of(s.approvals + [a], a.requestId)) >= required then Approved
    else ReviewRequired
  }

  /** One reviewer's decision; `a.digest` is what the row will hold. */
  function Decide(rules: Rules, s: State, a: Approval): Result<State> {
    var id := a.requestId;
    if id !in s.requests then Err("change request not found") else
    var r := s.requests[id];
    if !InWorkspace(s, r.content) then Err("change request environment does not match workspace")
    else if r.status != ReviewRequired then Err("request is not awaiting review")
    else if r.content.requestedBy == a.approverId then Err("requester cannot approve their own change")
    else if r.reviewDigest.None? then Err("request review content binding is missing")
    else if rules.digest(r.content) != Ok(r.reviewDigest.value) then
      Err("request review content binding does not match persisted content")
    else
      var policy := rules.quorum(PolicyInput(r.content.environment, r.content.risk));
      if a.choice == Approve && policy.Err? then Err(policy.reason)
      else if !Insertable(s.approvals, a) then Err("approver already decided this request")
      else
        var required := if policy.Ok? then policy.value else 0;
        var row := a.(digest := r.reviewDigest.value);
        Ok(s.(approvals := s.approvals + [row],
              requests := s.requests[id := r.(status := NextStatus(s, row, required))]))
  }

  /** The execution service takes an approved request over. */
  function Execute(s: State, id: string): Result<State> {
    if id !in s.requests || s.requests[id].status != Approved then Err("request is not approved")
    else Ok(s.(requests := s.requests[id := s.requests[id].(status := Executing)]))
  }

  function AddWorkspace(s: State, id: string, e: Environment): Result<State> {
    if id in s.workspaces then Err("duplicate id") else Ok(s.(workspaces := s.workspaces[id := e]))
  }

  // ---- When the operations succeed ----

  /** The workspace exists and is for this environment. */
  ghost predicate AtHome(s: State, c: Content) { c.workspaceId in s.workspaces && s.workspaces[c.workspaceId] == c.environment }

  lemma CreateIsExact(s: State, id: string, c: Content)
    ensures Create(s, id, c).Ok? <==> AtHome(s, c) && id !in s.requests
    ensures Create(s, id, c).Ok? ==>
      Create(s, id, c).value == State(s.workspaces, s.requests[id := Request(c, Draft, None)], s.approvals)
  {
  }

  lemma SubmitIsExact(rules: Rules, s: State, id: string)
    ensures Submit(rules, s, id).Ok? <==>
      && id in s.requests && AtHome(s, s.requests[id].content) && s.requests[id].status == Draft
      && s.requests[id].reviewDigest == None && rules.digest(s.requests[id].content).Ok?
    ensures Submit(rules, s, id).Ok? ==>
      var c := s.requests[id].content;
      Submit(rules, s, id).value ==
        State(s.workspaces, s.requests[id := Request(c, ReviewRequired, Some(rules.digest(c).value))], s.approvals)
  {
  }

  /** The stored approvals of one request, by their places. */
  ghost function Votes(approvals: seq<Approval>, id: string): set<int> {
    set i | 0 <= i < |approvals| && approvals[i].requestId == id && approvals[i].choice == Approve
  }

  lemma VotesOneMore(init: seq<Approval>, a: Approval, id: string)
    ensures |Votes(init + [a], id)| == |Votes(init, id)| + if a.requestId == id && a.choice == Approve then 1 else 0
  {
    var n, votes := |init|, Votes(init, id);
    assert forall i | 0 <= i < n :: (init + [a])[i] == init[i];
    assert n !in votes;
    assert Votes(init + [a], id) == if a.requestId == id && a.choice == Approve then votes + {n} else votes;
  }

  lemma {:induction false} CountIsVotes(approvals: seq<Approval>, id: string)
    ensures CountApproved(Of(approvals, id)) == |Votes(approvals, id)|
  {
    if approvals == [] {
      assert Votes(approvals, id) == {};
    } else {
      var init, last := approvals[..|approvals| - 1], approvals[|approvals| - 1];
      assert approvals == init + [last];
      CountIsVotes(init, id);
      VotesOneMore(init, last, id);
      OneMore(init, id, last);
      if last.requestId == id {
        CountOneMore(Of(init, id), last);
      } else {
        assert Of(approvals, id) == Of(init, id);
      }
    }
  }

  lemma CountOneMore(rows: seq<Approval>, a: Approval)
    ensures CountApproved(rows + [a]) == CountApproved(rows) + if a.choice == Approve then 1 else 0
  {
    assert (rows + [a])[..|rows|] == rows;
  }

  /**
   Exactly when a decision is accepted, on any tables: the request is under review in its workspace and
   bound to its stored content, the reviewer is not its requester and has not decided it, the row's id is
   new, and for an approval the policy gives a quorum. The row is stored with the request's digest; a
   denial settles the request, an approval when the votes have reached the quorum.
   */
  lemma DecideIsExact(rules: Rules, s: State, a: Approval)
    ensures Decide(rules, s, a).Ok? <==>
      && a.requestId in s.requests
      && var r := s.requests[a.requestId];
      && AtHome(s, r.content) && r.status == ReviewRequired && a.approverId != r.content.requestedBy
      && r.reviewDigest.Some? && rules.digest(r.content) == Ok(r.reviewDigest.value)
      && (a.choice == Approve ==> rules.quorum(PolicyInput(r.content.environment, r.content.risk)).Ok?)
      && (forall b | b in s.approvals :: b.id != a.id && (b.requestId != a.requestId || b.approverId != a.approverId))
    ensures Decide(rules, s, a).Ok? ==>
      var r := s.requests[a.requestId];
      var approvals := s.approvals + [Approval(a.id, a.requestId, a.approverId, a.choice, r.reviewDigest.value, a.at)];
      var status := if a.choice == Deny then Denied
                    else if |Votes(approvals, a.requestId)| >= rules.quorum(PolicyInput(r.content.environment, r.content.risk)).value
                    then Approved else ReviewRequired;
      Decide(rules, s, a).value == State(s.workspaces, s.requests[a.requestId := Request(r.content, status, r.reviewDigest)], approvals)
  {
    if Decide(rules, s, a).Ok? {
      var r := s.requests[a.requestId];
      CountIsVotes(s.approvals + [Approval(a.id, a.requestId, a.approverId, a.choice, r.reviewDigest.value, a.at)], a.requestId);
    }
  }

  lemma OthersAreExact(s: State, id: string, e: Environment)
    ensures Execute(s, id).Ok? <==> id in s.requests && s.requests[id].status == Approved
    ensures Execute(s, id).Ok? ==>
      var r := s.requests[id];
      Execute(s, id).value == State(s.workspaces, s.requests[id := Request(r.content, Executing, r.reviewDigest)], s.approvals)
    ensures AddWorkspace(s, id, e).Ok? <==> id !in s.workspaces
    ensures AddWorkspace(s, id, e).Ok? ==> AddWorkspace(s, id, e).value == State(s.workspaces[id := e], s.requests, s.approvals)
  {
  }

  // ---- Runs ----

  datatype Action =
    | NewWorkspace(id: string, environment: Environment)
    | NewRequest(id: string, content: Content)
    | SubmitRequest(id: string)
    | Review(row: Approval)
    | StartExecution(id: string)

  function Outcome(rules: Rules, s: State, a: Action): Result<State> {
    match a
    case NewWorkspace(id, e) => AddWorkspace(s, id, e)
    case NewRequest(id, c) => Create(s, id, c)
    case SubmitRequest(id) => Submit(rules, s, id)
    case Review(row) => Decide(rules, s, row)
    case StartExecution(id) => Execute(s, id)
  }

  /** A refused operation rolls back. */
  function Next(rules: Rules, s: State, a: Action): State {
    var r := Outcome(rules, s, a);
    if r.Ok? then r.value else s
  }

  function Run(rules: Rules, actions: seq<Action>): State {
    if actions == [] then State(map[], map[], [])
    else Next(rules, Run(rules, actions[..|actions| - 1]), actions[|actions| - 1])
  }

  /** An accepted operation takes effect, and a refused one has none. */
  lemma OperationsTakeEffect(rules: Rules, actions: seq<Action>, a: Action)
    ensures var s, s', r := Run(rules, actions), Run(rules, actions + [a]), Outcome(rules, Run(rules, actions), a);
      if r.Ok? then s' == r.value else s' == s
  {
    assert (actions + [a])[..|actions|] == actions;
  }

  // ---- What every reachable state satisfies ----

  ghost predicate Once(rows: seq<Approval>) {
    forall i, j | 0 <= i < j < |rows| :: rows[i].approverId != rows[j].approverId && rows[i].id != rows[j].id
  }

  ghost predicate AllApprove(rows: seq<Approval>) { forall a | a in rows :: a.choice == Approve }

  ghost predicate Bound(rows: seq<Approval>, r: Request) {
    forall a | a in rows :: Some(a.digest) == r.reviewDigest && a.approverId != r.content.requestedBy
  }

  /** The status says exactly what the rows of the request say. */
  ghost predicate StatusIsRight(r: Request, rows: seq<Approval>) {
    var n := Required(r.content.environment);
    match r.status
    case Draft => rows == [] && r.reviewDigest.None?
    case ReviewRequired => AllApprove(rows) && |rows| < n
    case Approved => AllApprove(rows) && |rows| == n
    case Executing => AllApprove(rows) && |rows| == n
    case Denied => 0 < |rows| <= n && AllApprove(rows[..|rows| - 1]) && rows[|rows| - 1].choice == Deny
  }

  ghost predicate Reviewed(rules: Rules, s: State, id: string) {
    id in s.requests ==>
      var r, rows := s.requests[id], Of(s.approvals, id);
      && InWorkspace(s, r.content)
      && (r.status != Draft ==> r.reviewDigest.Some? && rules.digest(r.content) == Ok(r.reviewDigest.value))
      && Bound(rows, r) && Once(rows) && StatusIsRight(r, rows)
  }

  ghost predicate Consistent(rules: Rules, s: State) {
    && (forall id :: Reviewed(rules, s, id))
    && (forall a | a in s.approvals :: a.requestId in s.requests)
  }

  lemma {:induction false} OfIsFilter(approvals: seq<Approval>, id: string, a: Approval)
    ensures a in Of(approvals, id) <==> a in approvals && a.requestId == id
  {
    if approvals != [] {
      var init, last := approvals[..|approvals| - 1], approvals[|approvals| - 1];
      assert approvals == init + [last];
      OfIsFilter(init, id, a);
    }
  }

  lemma OneMore(approvals: seq<Approval>, id: string, a: Approval)
    ensures Of(approvals + [a], id) == Of(approvals, id) + if a.requestId == id then [a] else []
  {
    assert (approvals + [a])[..|approvals|] == approvals;
  }

  lemma {:induction false} CountAll(rows: seq<Approval>)
    requires AllApprove(rows)
    ensures CountApproved(rows) == |rows|
  {
    if rows != [] {
      CountAll(rows[..|rows| - 1]);
    }
  }

  lemma InsertedOnce(approvals: seq<Approval>, a: Approval)
    requires Once(Of(approvals, a.requestId)) && Insertable(approvals, a)
    ensures Once(Of(approvals, a.requestId) + [a])
  {
    var rows := Of(approvals, a.requestId);
    forall i | 0 <= i < |rows| ensures rows[i].approverId != a.approverId && rows[i].id != a.id {
      OfIsFilter(approvals, a.requestId, rows[i]);
    }
  }

  /** A row with the right digest, from another reviewer, moves the status as it must. */
  lemma DecidedStatus(s: State, r: Request, row: Approval)
    requires r.status == ReviewRequired && StatusIsRight(r, Of(s.approvals, row.requestId))
    ensures StatusIsRight(r.(status := NextStatus(s, row, Required(r.content.environment))), Of(s.approvals + [row], row.requestId))
  {
    var rows := Of(s.approvals, row.requestId);
    OneMore(s.approvals, row.requestId, row);
    if row.choice == Approve {
      CountAll(rows + [row]);
    } else {
      assert (rows + [row])[..|rows|] == rows;
    }
  }

  /** When a decision is accepted. */
  ghost predicate May(rules: Rules, s: State, a: Approval) {
    && a.requestId in s.requests
    && var r := s.requests[a.requestId];
    && InWorkspace(s, r.content)
    && r.status == ReviewRequired && r.content.requestedBy != a.approverId
    && r.reviewDigest.Some? && rules.digest(r.content) == Ok(r.reviewDigest.value)
    && (a.choice == Approve ==> rules.quorum(PolicyInput(r.content.environment, r.content.risk)).Ok?)
    && Insertable(s.approvals, a)
  }

  function Row(r: Request, a: Approval): Approval { if r.reviewDigest.Some? then a.(digest := r.reviewDigest.value) else a }

  /** A decision is accepted exactly then; it adds one row bound to the stored digest and settles the status. */
  lemma DecideIffMay(rules: Rules, s: State, a: Approval)
    requires SoundRules(rules)
    ensures Decide(rules, s, a).Ok? <==> May(rules, s, a)
    ensures May(rules, s, a) ==>
      var r, s' := s.requests[a.requestId], Decide(rules, s, a).value;
      && s'.workspaces == s.workspaces && s'.approvals == s.approvals + [Row(r, a)]
      && s'.requests == s.requests[a.requestId := r.(status := NextStatus(s, Row(r, a), Required(r.content.environment)))]
  {
  }

  lemma DecideKeepsReviewed(rules: Rules, s: State, a: Approval, s': State)
    requires SoundRules(rules) && Reviewed(rules, s, a.requestId) && May(rules, s, a)
    requires var r := s.requests[a.requestId];
      && s'.workspaces == s.workspaces && s'.approvals == s.approvals + [Row(r, a)]
      && s'.requests == s.requests[a.requestId := r.(status := NextStatus(s, Row(r, a), Required(r.content.environment)))]
    ensures Reviewed(rules, s', a.requestId)
  {
    var r, row := s.requests[a.requestId], Row(s.requests[a.requestId], a);
    OneMore(s.approvals, a.requestId, row);
    InsertedOnce(s.approvals, row);
    DecidedStatus(s, r, row);
  }

  lemma DecideKeepsConsistent(rules: Rules, s: State, a: Approval, s': State)
    requires SoundRules(rules) && Consistent(rules, s) && Decide(rules, s, a) == Ok(s')
    ensures Consistent(rules, s')
  {
    DecideIffMay(rules, s, a);
    forall id ensures Reviewed(rules, s', id) {
      assert Reviewed(rules, s, id);
      if id == a.requestId {
        DecideKeepsReviewed(rules, s, a, s');
      } else {
        OneMore(s.approvals, id, Row(s.requests[a.requestId], a));
      }
    }
  }

  /** A new request has no rows yet, because every row belongs to a request that exists. */
  lemma CreateKeepsConsistent(rules: Rules, s: State, id: string, c: Content, s': State)
    requires Consistent(rules, s) && Create(s, id, c) == Ok(s')
    ensures Consistent(rules, s')
  {
    forall other ensures Reviewed(rules, s', other) {
      assert Reviewed(rules, s, other);
      var rows := Of(s.approvals, id);
      if rows != [] {
        OfIsFilter(s.approvals, id, rows[0]);
      }
    }
  }

  /** The caller has not decided this request yet, and the row's id is new. */
  ghost predicate NewVoice(s: State, a: Approval) {
    && (forall b | b in Of(s.approvals, a.requestId) :: b.approverId != a.approverId)
    && (forall b | b in s.approvals :: b.id != a.id)
  }

  /**
   In a consistent state a decision on a request under review is refused only to its requester, to
   someone who has decided, or when the policy has diverged. A denial settles the request at once; an
   approval settles it exactly when it is the last one required.
   */
  lemma ReviewerIsHeard(rules: Rules, s: State, a: Approval)
    requires SoundRules(rules) && Consistent(rules, s)
    requires a.requestId in s.requests && s.requests[a.requestId].status == ReviewRequired
    ensures var r, given := s.requests[a.requestId], |Of(s.approvals, a.requestId)|;
      var result, required := Decide(rules, s, a), Required(r.content.environment);
      && (result.Ok? <==>
            && a.approverId != r.content.requestedBy && NewVoice(s, a)
            && (a.choice == Approve ==> rules.quorum(PolicyInput(r.content.environment, r.content.risk)).Ok?))
      && var settled := if a.choice == Deny then Denied else if given + 1 == required then Approved else ReviewRequired;
      (result.Ok? ==> result.value.requests[a.requestId].status == settled)
  {
    assert Reviewed(rules, s, a.requestId);
    DecideIffMay(rules, s, a);
    NewVoiceIsInsertable(s, a);
    if May(rules, s, a) {
      var r, rows := s.requests[a.requestId], Of(s.approvals, a.requestId);
      OneMore(s.approvals, a.requestId, Row(r, a));
      if a.choice == Approve {
        CountAll(rows + [Row(r, a)]);
      }
    }
  }

  lemma NewVoiceIsInsertable(s: State, a: Approval)
    ensures NewVoice(s, a) <==> Insertable(s.approvals, a)
  {
    forall b ensures b in Of(s.approvals, a.requestId) <==> b in s.approvals && b.requestId == a.requestId {
      OfIsFilter(s.approvals, a.requestId, b);
    }
  }

  lemma NextKeepsConsistent(rules: Rules, s: State, a: Action)
    requires SoundRules(rules)
    requires Consistent(rules, s)
    ensures Consistent(rules, Next(rules, s, a))
  {
    var r := Outcome(rules, s, a);
    if r.Ok? {
      match a
      case NewRequest(id, c) => CreateKeepsConsistent(rules, s, id, c, r.value);
      case Review(row) => DecideKeepsConsistent(rules, s, row, r.value);
      case _ =>
        forall id ensures Reviewed(rules, r.value, id) {
          assert Reviewed(rules, s, id);
        }
    }
  }

  lemma {:induction false} RunIsConsistent(rules: Rules, actions: seq<Action>)
    requires SoundRules(rules)
    ensures Consistent(rules, Run(rules, actions))
  {
    if actions != [] {
      RunIsConsistent(rules, actions[..|actions| - 1]);
      NextKeepsConsistent(rules, Run(rules, actions[..|actions| - 1]), actions[|actions| - 1]);
    }
  }

  /**
   An approved request has exactly two rows in production and one elsewhere, all approvals by different people other
   than the requester, all bound to the digest of the content stored now; a request under review has
   fewer, and no denial.
   */
  ghost predicate StatusIsQuorum(rules: Rules, s: State, id: string) {
    id in s.requests ==>
      var r, rows := s.requests[id], Of(s.approvals, id);
      var approvers := set a | a in rows :: a.approverId;
      var quorum := if r.content.environment == Production then 2 else 1;
      && (r.status == Approved ==> |approvers| == |rows| == quorum && AllApprove(rows))
      && (r.status == ReviewRequired ==> |approvers| == |rows| < quorum && AllApprove(rows))
      && r.content.requestedBy !in approvers
      && (forall a | a in rows :: Ok(a.digest) == rules.digest(r.content))
  }

  /** In every reachable state the status of a request says what its approvals say. */
  lemma ApprovedMeansQuorum(rules: Rules, actions: seq<Action>, id: string)
    requires SoundRules(rules)
    ensures StatusIsQuorum(rules, Run(rules, actions), id)
  {
    var s := Run(rules, actions);
    RunIsConsistent(rules, actions);
    assert Reviewed(rules, s, id);
    if id in s.requests {
      DistinctApprovers(Of(s.approvals, id));
    }
  }

  /** So it is for the service, whatever evaluator is injected into it. */
  lemma ServiceMeansQuorum(sha: string -> string, evaluator: Option<Evaluator>, actions: seq<Action>, id: string)
    ensures var rules := ServiceRules(sha, evaluator); StatusIsQuorum(rules, Run(rules, actions), id)
  {
    ServiceRulesAreSound(sha, evaluator);
    ApprovedMeansQuorum(ServiceRules(sha, evaluator), actions, id);
  }

  lemma {:induction false} DistinctApprovers(rows: seq<Approval>)
    requires Once(rows)
    ensures |set a | a in rows :: a.approverId| == |rows|
  {
    if rows != [] {
      var init, last := rows[..|rows| - 1], rows[|rows| - 1];
      assert rows == init + [last];
      DistinctApprovers(init);
      var before := set a | a in init :: a.approverId;
      assert (set a | a in rows :: a.approverId) == before + {last.approverId};
      assert last.approverId !in before;
    }
  }

  // ---- Resolution of the approval evidence ----

  datatype PolicyRevision = PolicyRevision(version: string, validitySeconds: int, required: Environment -> nat)

  datatype ClockWitness = ClockWitness(environment: Environment, observedAt: int)

  datatype Record = Record(id: string, approverId: string, at: int)

  datatype Evidence = Evidence(
    requestId: string, payloadDigest: string, targetDigest: string, capability: string, policyVersion: string,
    approvals: seq<Record>, validUntil: int)

  /** What the resolution is asked for. */
  datatype Query = Query(requestId: string, capability: string, targetDigest: string, policy: PolicyRevision, clock: ClockWitness)

  /** The stored rows of one request in the order of their ids. */
  ghost predicate Selected(s: State, id: string, rows: seq<Approval>) {
    && (forall a :: a in rows <==> a in Of(s.approvals, id))
    && (forall i, j | 0 <= i < j < |rows| :: Less(rows[i].id, rows[j].id))
  }

  function RecordOf(a: Approval): Record { Record(a.id, a.approverId, a.at) }

  function RecordsOf(rows: seq<Approval>): (rs: seq<Record>)
    ensures |rs| == |rows| && forall i | 0 <= i < |rows| :: rs[i] == RecordOf(rows[i])
  {
    seq(|rows|, i requires 0 <= i < |rows| => RecordOf(rows[i]))
  }

  function Deadline(q: Query, a: Approval): int { a.at + q.policy.validitySeconds * 1000 }

  /** One row is usable evidence for a request with this digest and requester. */
  predicate Counts(q: Query, r: Request, a: Approval) {
    && a.choice == Approve && Some(a.digest) == r.reviewDigest
    && a.approverId != r.content.requestedBy && a.at <= q.clock.observedAt
  }

  /** The request itself can be resolved. */
  predicate Resolvable(rules: Rules, s: State, q: Query) {
    && q.requestId in s.requests
    && var r := s.requests[q.requestId];
    && InWorkspace(s, r.content) && q.clock.environment == r.content.environment && r.status == Approved
    && r.reviewDigest.Some? && rules.digest(r.content) == Ok(r.reviewDigest.value)
  }

  ghost predicate IsMinDeadline(q: Query, rows: seq<Approval>, m: int) {
    && (forall a | a in rows :: m <= a.at + q.policy.validitySeconds * 1000)
    && exists a | a in rows :: m == a.at + q.policy.validitySeconds * 1000
  }

  /** When the resolution succeeds. */
  ghost predicate Resolves(rules: Rules, s: State, q: Query, rows: seq<Approval>) {
    && q.requestId in s.requests && rows != []
    && var r := s.requests[q.requestId];
    && AtHome(s, r.content) && q.clock.environment == r.content.environment && r.status == Approved
    && r.reviewDigest.Some? && rules.digest(r.content) == Ok(r.reviewDigest.value)
    && (forall a | a in rows ::
          && a.choice == Approve && a.digest == r.reviewDigest.value && a.approverId != r.content.requestedBy
          && a.at <= q.clock.observedAt && q.clock.observedAt < a.at + q.policy.validitySeconds * 1000)
    && |set a | a in rows :: a.approverId| == |rows| >= q.policy.required(r.content.environment)
  }

  /** The loop over the rows, up to the first one that does not count. */
  method CollectRows(q: Query, r: Request, rows: seq<Approval>) returns (ok: bool, records: seq<Record>, deadlines: seq<int>)
    ensures ok <==> forall a | a in rows :: Counts(q, r, a)
    ensures ok ==> records == RecordsOf(rows) && |deadlines| == |rows|
    ensures ok ==> forall i | 0 <= i < |rows| :: deadlines[i] == Deadline(q, rows[i])
  {
    records, deadlines := [], [];
    for n := 0 to |rows|
      invariant |records| == |deadlines| == n
      invariant forall i | 0 <= i < n :: Counts(q, r, rows[i]) && records[i] == RecordOf(rows[i]) && deadlines[i] == Deadline(q, rows[i])
    {
      if !Counts(q, r, rows[n]) {
        assert rows[n] in rows;
        return false, [], [];
      }
      records := records + [RecordOf(rows[n])];
      deadlines := deadlines + [Deadline(q, rows[n])];
    }
    assert records == RecordsOf(rows);
    return true, records, deadlines;
  }

  method MinOf(xs: seq<int>) returns (m: int)
    requires xs != []
    ensures m in xs && forall x | x in xs :: m <= x
  {
    m := xs[0];
    for n := 1 to |xs|
      invariant m in xs && forall i | 0 <= i < n :: m <= xs[i]
    {
      if xs[n] < m { m := xs[n]; }
    }
  }

  /** The evidence set itself refuses repeated reviewers and approvals after its own deadline. */
  method CreateEvidence(e: Evidence) returns (r: Result<Evidence>)
    ensures r.Ok? <==>
      && e.approvals != []
      && |set x | x in e.approvals :: x.approverId| == |e.approvals|
      && |set x | x in e.approvals :: x.id| == |e.approvals|
      && forall x | x in e.approvals :: x.at <= e.validUntil
    ensures r.Ok? ==> r.value == e
  {
    if e.approvals == [] { return Err("approvals must contain approved records"); }
    if |set x | x in e.approvals :: x.id| != |e.approvals| { return Err("approval IDs must be distinct"); }
    if |set x | x in e.approvals :: x.approverId| != |e.approvals| { return Err("approver identities must be distinct"); }
    if exists x | x in e.approvals :: x.at > e.validUntil { return Err("approval occurs after approval validity"); }
    return Ok(e);
  }

  lemma {:induction false} OrderedIdsAreDistinct(rows: seq<Approval>)
    requires forall i, j | 0 <= i < j < |rows| :: Less(rows[i].id, rows[j].id)
    ensures |set x | x in RecordsOf(rows) :: x.id| == |rows|
  {
    if rows != [] {
      var init, last := rows[..|rows| - 1], rows[|rows| - 1];
      OrderedIdsAreDistinct(init);
      var before := set x | x in RecordsOf(init) :: x.id;
      assert RecordsOf(rows) == RecordsOf(init) + [RecordOf(last)];
      assert (set x | x in RecordsOf(rows) :: x.id) == before + {last.id};
      forall i | 0 <= i < |init| ensures init[i].id != last.id {
        assert Less(rows[i].id, rows[|rows| - 1].id);
        LessIsIrreflexive(last.id);
      }
    }
  }

  lemma SameApprovers(rows: seq<Approval>)
    ensures (set x | x in RecordsOf(rows) :: x.approverId) == (set a | a in rows :: a.approverId)
  {
    var rs := RecordsOf(rows);
    var left, right := set x | x in rs :: x.approverId, set a | a in rows :: a.approverId;
    forall v | v in right ensures v in left {
      var i :| 0 <= i < |rows| && rows[i].approverId == v;
      assert rs[i] in rs;
    }
  }

  /** Succeeds exactly when the stored rows form unexpired evidence, and then returns all of them and the earliest deadline. */
  method LoadApprovalEvidence(rules: Rules, s: State, q: Query, rows: seq<Approval>) returns (r: Result<Evidence>)
    requires Selected(s, q.requestId, rows)
    ensures r.Ok? <==> Resolves(rules, s, q, rows)
    ensures r.Ok? ==>
      && r.value.(validUntil := 0) == Evidence(q.requestId, rules.payloadDigest(s.requests[q.requestId].content), q.targetDigest,
                                               q.capability, q.policy.version, r.value.approvals, 0)
      && |r.value.approvals| == |rows|
      && (forall i | 0 <= i < |rows| :: r.value.approvals[i] == Record(rows[i].id, rows[i].approverId, rows[i].at))
      && IsMinDeadline(q, rows, r.value.validUntil)
  {
    if !Resolvable(rules, s, q) { return Err("change request cannot be resolved"); }
    if rows == [] { return Err("approved change request has no approval evidence"); }
    var request := s.requests[q.requestId];
    var ok, records, deadlines := CollectRows(q, request, rows);
    if !ok { return Err("approval evidence does not bind the request"); }
    SameApprovers(rows);
    if |set x | x in records :: x.approverId| < q.policy.required(request.content.environment) {
      return Err("approval evidence does not satisfy policy quorum");
    }
    var validUntil := MinOf(deadlines);
    MinIsMin(q, rows, deadlines, validUntil);
    if validUntil <= q.clock.observedAt { return Err("approval evidence is expired"); }
    OrderedIdsAreDistinct(rows);
    RecordsInTime(q, request, rows, validUntil);
    r := CreateEvidence(Evidence(q.requestId, rules.payloadDigest(request.content), q.targetDigest, q.capability,
                                 q.policy.version, records, validUntil));
  }

  lemma MinIsMin(q: Query, rows: seq<Approval>, deadlines: seq<int>, m: int)
    requires |deadlines| == |rows| && forall i | 0 <= i < |rows| :: deadlines[i] == Deadline(q, rows[i])
    requires m in deadlines && forall x | x in deadlines :: m <= x
    ensures IsMinDeadline(q, rows, m)
    ensures q.clock.observedAt < m <==> forall a | a in rows :: q.clock.observedAt < Deadline(q, a)
  {
    forall i | 0 <= i < |rows| ensures m <= Deadline(q, rows[i]) {
      assert deadlines[i] in deadlines;
    }
    var i :| 0 <= i < |deadlines| && deadlines[i] == m;
    assert rows[i] in rows;
  }

  lemma RecordsInTime(q: Query, r: Request, rows: seq<Approval>, validUntil: int)
    requires (forall a | a in rows :: Counts(q, r, a)) && q.clock.observedAt < validUntil
    ensures forall x | x in RecordsOf(rows) :: x.at <= validUntil
  {
    forall i | 0 <= i < |rows| ensures RecordsOf(rows)[i].at <= validUntil {
      assert Counts(q, r, rows[i]);
    }
  }

  /**
   With a clock that has not gone back, matching environments and a policy that asks for no more
   than the review did, the evidence of an approved request resolves unless a row has expired.
   */
  lemma ApprovedResolvesUnlessExpired(rules: Rules, actions: seq<Action>, q: Query, rows: seq<Approval>)
    requires SoundRules(rules) && Selected(Run(rules, actions), q.requestId, rows)
    requires q.requestId in Run(rules, actions).requests
    requires var r := Run(rules, actions).requests[q.requestId];
      && r.status == Approved && q.clock.environment == r.content.environment
      && q.policy.required(r.content.environment) <= Required(r.content.environment)
    requires forall a | a in rows :: a.at <= q.clock.observedAt
    ensures Resolves(rules, Run(rules, actions), q, rows) <==> forall a | a in rows :: q.clock.observedAt < Deadline(q, a)
  {
    var s := Run(rules, actions);
    RunIsConsistent(rules, actions);
    assert Reviewed(rules, s, q.requestId);
    var stored := Of(s.approvals, q.requestId);
    DistinctApprovers(stored);
    assert (set a | a in rows :: a.approverId) == (set a | a in stored :: a.approverId);
    SameLength(rows, stored);
  }

  lemma SameLength(rows: seq<Approval>, stored: seq<Approval>)
    requires forall a :: a in rows <==> a in stored
    requires forall i, j | 0 <= i < j < |rows| :: Less(rows[i].id, rows[j].id)
    requires Once(stored)
    ensures |rows| == |stored|
  {
    OrderedIdsAreDistinct(rows);
    DistinctIds(stored);
    SameIds(rows, stored);
  }

  lemma SameIds(rows: seq<Approval>, stored: seq<Approval>)
    requires forall a :: a in rows <==> a in stored
    ensures (set x | x in RecordsOf(rows) :: x.id) == (set a | a in stored :: a.id)
  {
    var rs := RecordsOf(rows);
    var left, right := set x | x in rs :: x.id, set a | a in stored :: a.id;
    forall v | v in right ensures v in left {
      var a :| a in stored && a.id == v;
      assert a in rows;
      var i :| 0 <= i < |rows| && rows[i] == a;
      assert rs[i] in rs;
    }
    forall v | v in left ensures v in right {
      var i :| 0 <= i < |rs| && rs[i].id == v;
      assert rows[i] in rows;
    }
  }

  lemma {:induction false} DistinctIds(rows: seq<Approval>)
    requires Once(rows)
    ensures |set a | a in rows :: a.id| == |rows|
  {
    if rows != [] {
      var init, last := rows[..|rows| - 1], rows[|rows| - 1];
      assert rows == init + [last];
      DistinctIds(init);
      var before := set a | a in init :: a.id;
      assert (set a | a in rows :: a.id) == before + {last.id};
      assert last.id !in before;
    }
  }

  // ---- The service ----

  class ChangeRequestService {
    const rules: Rules
    var state: State

    constructor (rules: Rules)
      requires SoundRules(rules)
      ensures this.rules == rules && state == State(map[], map[], []) && Consistent(rules, state)
    {
      this.rules := rules;
      state := State(map[], map[], []);
    }

    method CreateChangeRequest(id: string, c: Content) returns (r: Result<State>)
      requires Consistent(rules, state)
      modifies this
      ensures r == Create(old(state), id, c)
      ensures state == if r.Ok? then r.value else old(state)
      ensures Consistent(rules, state)
    {
      r := Create(state, id, c);
      if r.Ok? {
        CreateKeepsConsistent(rules, state, id, c, r.value);
        state := r.value;
      }
    }

    method SubmitChangeRequest(id: string) returns (r: Result<State>)
      requires SoundRules(rules) && Consistent(rules, state)
      modifies this
      ensures r == Submit(rules, old(state), id)
      ensures state == if r.Ok? then r.value else old(state)
      ensures Consistent(rules, state)
    {
      r := Submit(rules, state, id);
      if r.Ok? {
        NextKeepsConsistent(rules, state, SubmitRequest(id));
        state := r.value;
      }
    }

    /** One transaction: the row is inserted, the approvals are counted again and the status is set. */
    method ApproveChangeRequest(a: Approval) returns (ok: bool)
      requires SoundRules(rules) && Consistent(rules, state)
      modifies this
      ensures ok <==> May(rules, old(state), a)
      ensures ok ==> Decide(rules, old(state), a) == Ok(state)
      ensures !ok ==> state == old(state)
      ensures Consistent(rules, state)
    {
      DecideIffMay(rules, state, a);
      if a.requestId !in state.requests { return false; }
      var request := state.requests[a.requestId];
      if !InWorkspace(state, request.content) || request.status != ReviewRequired || request.content.requestedBy == a.approverId
         || request.reviewDigest.None? || rules.digest(request.content) != Ok(request.reviewDigest.value) {
        return false;
      }
      var policy := rules.quorum(PolicyInput(request.content.environment, request.content.risk));
      if a.choice == Approve && policy.Err? { return false; }
      if !Insertable(state.approvals, a) { return false; }
      DecideKeepsConsistent(rules, state, a, Decide(rules, state, a).value);
      var row := a.(digest := request.reviewDigest.value);
      state := state.(approvals := state.approvals + [row]);
      var status := if a.choice == Deny then Denied else ReviewRequired;
      if a.choice == Approve && CountApproved(Of(state.approvals, a.requestId)) >= policy.value {
        status := Approved;
      }
      state := state.(requests := state.requests[a.requestId := request.(status := status)]);
      return true;
    }
  }
}
