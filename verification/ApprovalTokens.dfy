/** The ledger of approval tokens: what one grant allows, over whole runs. */
module ApprovalTokens {
  import opened Text
  import opened StreamTypes

  datatype Scope = Scope(policy: string, action: string, repository: Option<string>, branch: Option<string>)

  datatype Hop = Hop(actor: string, sessionId: Option<string>, reason: string)

  datatype Status = Pending | Granted | Consumed | Expired | Revoked

  datatype TokenError =
    | NoApproval
    | ApprovalPending
    | ApprovalExpired
    | ApprovalRevoked
    | ApprovalAlreadyConsumed
    | ScopeMismatch(expected: Scope, actual: Scope)
    | UnauthorizedDelegate(expectedActor: string, actualActor: string)

  datatype Grant = Grant(
    token: string, scope: Scope, approvingActor: string, approvedExecutor: string, status: Status,
    expiresAt: Option<nat>, maxUses: u32, uses: u32, chain: seq<Hop>)

  datatype Audit = Audit(
    token: string, scope: Scope, approvingActor: string, executingActor: string, status: Status,
    delegated: bool, chain: seq<Hop>, uses: u32, maxUses: u32)

  // --- Builders ---

  datatype Build = Approve | ExpiresAt(at: nat) | WithMaxUses(uses: u32) | WithHop(hop: Hop)

  function PendingGrant(token: string, scope: Scope, approvingActor: string, approvedExecutor: string): Grant {
    Grant(token, scope, approvingActor, approvedExecutor, Pending, None, 1, 0, [])
  }

  function BuildOne(g: Grant, b: Build): Grant {
    match b
    case Approve => g.(status := Granted)
    case ExpiresAt(at) => g.(expiresAt := Some(at))
    case WithMaxUses(uses) => g.(maxUses := if uses < 1 then 1 else uses)
    case WithHop(hop) => g.(chain := g.chain + [hop])
  }

  function BuildAll(g: Grant, builds: seq<Build>): Grant {
    if builds == [] then g else BuildOne(BuildAll(g, builds[..|builds| - 1]), builds[|builds| - 1])
  }

  /** Unused, good for at least one use, and pending or granted. */
  predicate IsFresh(g: Grant) {
    g.uses == 0 && g.maxUses >= 1 && (g.status.Pending? || g.status.Granted?)
  }

  /** However a grant is built, it is fresh, and granted exactly when it was approved. */
  lemma {:induction false} BuiltIsFresh(token: string, scope: Scope, approver: string, executor: string, builds: seq<Build>)
    ensures var g := BuildAll(PendingGrant(token, scope, approver, executor), builds);
            && IsFresh(g) && (g.status.Granted? <==> Approve in builds)
            && g.token == token && g.scope == scope && g.approvedExecutor == executor
  {
    if builds != [] {
      var init, last := builds[..|builds| - 1], builds[|builds| - 1];
      BuiltIsFresh(token, scope, approver, executor, init);
      assert builds == init + [last];
    }
  }

  // --- One call ---

  function Validate(g: Grant, scope: Scope, actor: string, now: nat): Option<TokenError> {
    match g.status
    case Pending => Some(ApprovalPending)
    case Consumed => Some(ApprovalAlreadyConsumed)
    case Expired => Some(ApprovalExpired)
    case Revoked => Some(ApprovalRevoked)
    case Granted =>
      if g.expiresAt.Some? && now > g.expiresAt.value then Some(ApprovalExpired)
      else if g.uses >= g.maxUses then Some(ApprovalAlreadyConsumed)
      else if g.scope != scope then Some(ScopeMismatch(g.scope, scope))
      else if g.approvedExecutor != actor then Some(UnauthorizedDelegate(g.approvedExecutor, actor))
      else None
  }

  predicate NamesActor(chain: seq<Hop>, actor: string) {
    exists i :: 0 <= i < |chain| && chain[i].actor == actor
  }

  function AuditChain(g: Grant, actor: string): seq<Hop> {
    var start := if g.chain == [] then [Hop(g.approvingActor, None, "approval granted")] else g.chain;
    if g.approvingActor != actor && !NamesActor(start, actor) then start + [Hop(actor, None, "delegated execution")]
    else start
  }

  function AuditFor(g: Grant, actor: string): Audit {
    Audit(g.token, g.scope, g.approvingActor, actor, g.status, g.approvingActor != actor,
          AuditChain(g, actor), g.uses, g.maxUses)
  }

  /** The audit chain continues the grant's, starts somewhere, and accounts for a delegated executor. */
  lemma AuditChainExtends(g: Grant, actor: string)
    ensures var chain := AuditChain(g, actor);
            && chain != [] && g.chain <= chain && |chain| <= |g.chain| + 2
            && (g.chain == [] ==> chain[0].actor == g.approvingActor)
            && (g.approvingActor != actor ==> NamesActor(chain, actor))
            && (forall i :: |g.chain| <= i < |chain| ==> chain[i].actor == g.approvingActor || chain[i].actor == actor)
  {
    var start := if g.chain == [] then [Hop(g.approvingActor, None, "approval granted")] else g.chain;
    var chain := AuditChain(g, actor);
    if g.approvingActor != actor && !NamesActor(start, actor) {
      assert chain[|chain| - 1].actor == actor;
    }
  }

  function Used(g: Grant): Grant
    requires g.uses < g.maxUses
  {
    g.(uses := g.uses + 1, status := if g.uses + 1 >= g.maxUses then Consumed else g.status)
  }

  type Grants = map<string, Grant>

  class Ledger {
    var grants: Grants

    constructor ()
      ensures grants == map[]
    {
      grants := map[];
    }

    method Insert(grant: Grant)
      modifies this
      ensures grants == old(grants)[grant.token := grant]
    {
      grants := grants[grant.token := grant];
    }

    method Revoke(token: string) returns (r: Result<Audit, TokenError>)
      modifies this
      ensures grants == Step(old(grants), RevokeToken(token)) && r == Answer(old(grants), RevokeToken(token))
    {
      if token !in grants {
        return Err(NoApproval);
      }
      var grant := grants[token].(status := Revoked);
      grants := grants[token := grant];
      r := Ok(AuditFor(grant, grant.approvedExecutor));
    }

    /** Changes nothing. */
    method Verify(token: string, scope: Scope, actor: string, now: nat) returns (r: Result<Audit, TokenError>)
      ensures r == Answer(grants, VerifyToken(token, scope, actor, now))
    {
      if token !in grants {
        return Err(NoApproval);
      }
      var error := Validate(grants[token], scope, actor, now);
      if error.Some? {
        return Err(error.value);
      }
      r := Ok(AuditFor(grants[token], actor));
    }

    method Consume(token: string, scope: Scope, actor: string, now: nat) returns (r: Result<Audit, TokenError>)
      modifies this
      ensures grants == Step(old(grants), ConsumeToken(token, scope, actor, now))
      ensures r == Answer(old(grants), ConsumeToken(token, scope, actor, now))
    {
      if token !in grants {
        return Err(NoApproval);
      }
      var grant := grants[token];
      var error := Validate(grant, scope, actor, now);
      if error.Some? {
        return Err(error.value);
      }
      grant := grant.(uses := grant.uses + 1);
      if grant.uses >= grant.maxUses {
        grant := grant.(status := Consumed);
      }
      grants := grants[token := grant];
      r := Ok(AuditFor(grant, actor));
    }
  }

  // --- Runs ---

  datatype Op =
    | InsertGrant(grant: Grant)
    | RevokeToken(token: string)
    | VerifyToken(token: string, scope: Scope, actor: string, now: nat)
    | ConsumeToken(token: string, scope: Scope, actor: string, now: nat)

  function Step(m: Grants, op: Op): Grants {
    match op
    case InsertGrant(g) => m[g.token := g]
    case RevokeToken(t) => if t in m then m[t := m[t].(status := Revoked)] else m
    case VerifyToken(_, _, _, _) => m
    case ConsumeToken(t, scope, actor, now) =>
      if t in m && Validate(m[t], scope, actor, now).None? then m[t := Used(m[t])] else m
  }

  function Answer(m: Grants, op: Op): Result<Audit, TokenError>
    requires !op.InsertGrant?
  {
    if op.token !in m then Err(NoApproval)
    else if op.RevokeToken? then
      Ok(AuditFor(m[op.token].(status := Revoked), m[op.token].approvedExecutor))
    else
      match Validate(m[op.token], op.scope, op.actor, op.now)
      case Some(error) => Err(error)
      case None => Ok(AuditFor(if op.ConsumeToken? then Used(m[op.token]) else m[op.token], op.actor))
  }

  function Run(m: Grants, ops: seq<Op>): Grants {
    if ops == [] then m else Step(Run(m, ops[..|ops| - 1]), ops[|ops| - 1])
  }

  /** The consumptions of a token that were answered with success. */
  function Successes(m: Grants, ops: seq<Op>, token: string): nat {
    if ops == [] then 0
    else
      var init, last := ops[..|ops| - 1], ops[|ops| - 1];
      Successes(m, init, token)
      + if last.ConsumeToken? && last.token == token && Answer(Run(m, init), last).Ok? then 1 else 0
  }

  predicate WasRevoked(ops: seq<Op>, token: string) {
    RevokeToken(token) in ops
  }

  /** The token's grant is not replaced by another. */
  predicate NotReinserted(ops: seq<Op>, token: string) {
    forall i :: 0 <= i < |ops| && ops[i].InsertGrant? ==> ops[i].grant.token != token
  }

  /** The grant as its history has left it. */
  function Aged(g: Grant, revoked: bool, successes: u32): Grant {
    g.(uses := successes,
       status := if revoked then Revoked else if successes >= g.maxUses then Consumed else g.status)
  }

  lemma StepAges(m: Grants, op: Op, token: string, g: Grant, revoked: bool, successes: u32)
    requires IsFresh(g) && token in m && successes <= g.maxUses && m[token] == Aged(g, revoked, successes)
    requires op.InsertGrant? ==> op.grant.token != token
    ensures var success := op.ConsumeToken? && op.token == token && Answer(m, op).Ok?;
            && token in Step(m, op)
            && (success ==> successes < g.maxUses)
            && Step(m, op)[token] ==
                 Aged(g, revoked || op == RevokeToken(token), if success then successes + 1 else successes)
  {
  }

  /**
   * A fresh grant that is not replaced carries exactly its history: revoked if it ever was, used as
   * often as it was consumed, and never more often than it allows, whatever else happens.
   */
  lemma {:induction false} GrantIsItsHistory(m: Grants, ops: seq<Op>, token: string)
    requires token in m && IsFresh(m[token]) && NotReinserted(ops, token)
    ensures Successes(m, ops, token) <= m[token].maxUses
    ensures token in Run(m, ops)
    ensures Run(m, ops)[token] == Aged(m[token], WasRevoked(ops, token), Successes(m, ops, token))
  {
    hide Step, Answer, Aged;
    if ops == [] {
      NotAged(m[token]);
    } else {
      var init, last := ops[..|ops| - 1], ops[|ops| - 1];
      assert ops == init + [last];
      GrantIsItsHistory(m, init, token);
      StepAges(Run(m, init), last, token, m[token], WasRevoked(init, token), Successes(m, init, token));
    }
  }

  lemma NotAged(g: Grant)
    requires IsFresh(g)
    ensures Aged(g, false, 0) == g
  {
  }

  /** The grant has been used up, or withdrawn, or never was approved. */
  function Spent(g: Grant, revoked: bool, successes: nat): Option<TokenError> {
    if revoked then Some(ApprovalRevoked)
    else if g.status.Pending? then Some(ApprovalPending)
    else if successes >= g.maxUses then Some(ApprovalAlreadyConsumed)
    else None
  }

  /** What the grant says about a request, as it was issued. */
  function Permits(g: Grant, scope: Scope, actor: string, now: nat): Option<TokenError> {
    if g.expiresAt.Some? && now > g.expiresAt.value then Some(ApprovalExpired)
    else if g.scope != scope then Some(ScopeMismatch(g.scope, scope))
    else if g.approvedExecutor != actor then Some(UnauthorizedDelegate(g.approvedExecutor, actor))
    else None
  }

  /** The answer by history alone: what the run did to the token, then what the grant permits. */
  function Verdict(g: Grant, revoked: bool, successes: nat, scope: Scope, actor: string, now: nat): Option<TokenError> {
    var spent := Spent(g, revoked, successes);
    if spent.Some? then spent else Permits(g, scope, actor, now)
  }

  lemma ValidateAged(g: Grant, revoked: bool, successes: u32, scope: Scope, actor: string, now: nat)
    requires IsFresh(g)
    requires g.status.Pending? ==> successes == 0
    ensures Validate(Aged(g, revoked, successes), scope, actor, now) == Verdict(g, revoked, successes, scope, actor, now)
  {
  }

  lemma {:induction false} PendingNeverConsumed(m: Grants, ops: seq<Op>, token: string)
    requires token in m && IsFresh(m[token]) && m[token].status.Pending? && NotReinserted(ops, token)
    ensures Successes(m, ops, token) == 0
  {
    hide Step, Run;
    if ops != [] {
      var init, last := ops[..|ops| - 1], ops[|ops| - 1];
      PendingNeverConsumed(m, init, token);
      GrantIsItsHistory(m, init, token);
    }
  }

  /**
   * After any run, a consumption or a verification of the token is answered by the token's history:
   * refused once the token is revoked or used up, and otherwise exactly as the grant permits.
   */
  lemma AnsweredByHistory(m: Grants, ops: seq<Op>, token: string, scope: Scope, actor: string, now: nat)
    requires token in m && IsFresh(m[token]) && NotReinserted(ops, token)
    ensures var verdict := Verdict(m[token], WasRevoked(ops, token), Successes(m, ops, token), scope, actor, now);
            var consumed := Answer(Run(m, ops), ConsumeToken(token, scope, actor, now));
            var verified := Answer(Run(m, ops), VerifyToken(token, scope, actor, now));
            && (verdict.Some? ==> consumed == Err(verdict.value) && verified == Err(verdict.value))
            && (verdict.None? ==> consumed.Ok? && verified.Ok?)
  {
    hide Run, Successes, Verdict, Validate, Aged;
    GrantIsItsHistory(m, ops, token);
    if m[token].status.Pending? {
      PendingNeverConsumed(m, ops, token);
    }
    ValidateAged(m[token], WasRevoked(ops, token), Successes(m, ops, token), scope, actor, now);
  }

  /** A success means: approved, not revoked, uses left, the exact scope and executor, in time. */
  lemma SuccessMeansPermitted(m: Grants, ops: seq<Op>, token: string, scope: Scope, actor: string, now: nat)
    requires token in m && IsFresh(m[token]) && NotReinserted(ops, token)
    ensures var g := m[token];
            Answer(Run(m, ops), ConsumeToken(token, scope, actor, now)).Ok? <==>
              && g.status.Granted? && !WasRevoked(ops, token) && Successes(m, ops, token) < g.maxUses
              && g.scope == scope && g.approvedExecutor == actor
              && (g.expiresAt.Some? ==> now <= g.expiresAt.value)
  {
    hide Run, Successes, Answer;
    AnsweredByHistory(m, ops, token, scope, actor, now);
  }

  /** The audit of a success names the grant, both actors and the use it was, counted from the history. */
  lemma SuccessIsAudited(m: Grants, ops: seq<Op>, token: string, scope: Scope, actor: string, now: nat)
    requires token in m && IsFresh(m[token]) && NotReinserted(ops, token)
    ensures var g := m[token];
            var r := Answer(Run(m, ops), ConsumeToken(token, scope, actor, now));
            r.Ok? ==>
              && r.value.token == g.token && r.value.scope == scope
              && r.value.approvingActor == g.approvingActor && r.value.executingActor == actor == g.approvedExecutor
              && (r.value.delegated <==> actor != g.approvingActor)
              && r.value.uses == Successes(m, ops, token) + 1 <= r.value.maxUses == g.maxUses
              && r.value.status == (if r.value.uses == g.maxUses then Consumed else Granted)
  {
    hide Run, Successes, AuditChain;
    GrantIsItsHistory(m, ops, token);
    SuccessMeansPermitted(m, ops, token, scope, actor, now);
  }

  /** Verification foretells consumption: the same audit but for the use it does not count. */
  lemma VerifyForetellsConsume(m: Grants, token: string, scope: Scope, actor: string, now: nat)
    ensures var verified := Answer(m, VerifyToken(token, scope, actor, now));
            var consumed := Answer(m, ConsumeToken(token, scope, actor, now));
            && (verified.Ok? <==> consumed.Ok?)
            && (verified.Err? ==> consumed == verified)
            && (verified.Ok? ==>
                  && consumed.value.uses == verified.value.uses + 1
                  && (consumed.value.status.Consumed? <==> consumed.value.uses == consumed.value.maxUses)
                  && consumed.value == verified.value.(uses := consumed.value.uses, status := consumed.value.status))
  {
    if token in m {
      var g := m[token];
      if Validate(g, scope, actor, now).None? {
        SameChain(g, Used(g), actor);
      }
    }
  }

  lemma SameChain(g: Grant, h: Grant, actor: string)
    requires h.chain == g.chain && h.approvingActor == g.approvingActor
    ensures AuditChain(h, actor) == AuditChain(g, actor)
  {
  }

  /** Only requests the grant permits, for this token. */
  predicate AllPermitted(g: Grant, ops: seq<Op>) {
    forall i :: 0 <= i < |ops| ==>
      ops[i].ConsumeToken? && ops[i].token == g.token && Permits(g, ops[i].scope, ops[i].actor, ops[i].now).None?
  }

  /** An approved grant serves permitted requests until its uses are gone, and not one more. */
  lemma {:induction false} ServesUpToMaxUses(m: Grants, ops: seq<Op>, token: string)
    requires token in m && m[token].token == token && IsFresh(m[token]) && m[token].status.Granted?
    requires AllPermitted(m[token], ops)
    ensures Successes(m, ops, token) == if |ops| < m[token].maxUses then |ops| else m[token].maxUses
  {
    hide Step, Answer, Permits;
    if ops != [] {
      var init, last := ops[..|ops| - 1], ops[|ops| - 1];
      ServesUpToMaxUses(m, init, token);
      NoRevocation(m[token], init);
      AnsweredByHistory(m, init, token, last.scope, last.actor, last.now);
    }
  }

  lemma NoRevocation(g: Grant, ops: seq<Op>)
    requires AllPermitted(g, ops)
    ensures !WasRevoked(ops, g.token) && NotReinserted(ops, g.token)
  {
    hide Permits;
  }

  // --- What a built grant says ---

  /** The last step of a kind decides. */
  ghost predicate LastExpiry(builds: seq<Build>, at: nat) {
    exists i :: 0 <= i < |builds| && builds[i] == ExpiresAt(at) && forall j :: i < j < |builds| ==> !builds[j].ExpiresAt?
  }

  ghost predicate LastUses(builds: seq<Build>, uses: u32) {
    exists i :: 0 <= i < |builds| && builds[i] == WithMaxUses(uses) && forall j :: i < j < |builds| ==> !builds[j].WithMaxUses?
  }

  function Hops(builds: seq<Build>): seq<Hop> {
    if builds == [] then []
    else (if builds[0].WithHop? then [builds[0].hop] else []) + Hops(builds[1..])
  }

  lemma {:induction false} HopsSnoc(builds: seq<Build>, b: Build)
    ensures Hops(builds + [b]) == Hops(builds) + if b.WithHop? then [b.hop] else []
  {
    if builds == [] {
      assert [b][1..] == [] && [] + [b] == [b];
    } else {
      HopsSnoc(builds[1..], b);
      assert (builds + [b])[1..] == builds[1..] + [b];
    }
  }

  lemma LastStep(builds: seq<Build>, b: Build)
    ensures forall at: nat :: LastExpiry(builds + [b], at) <==> if b.ExpiresAt? then b.at == at else LastExpiry(builds, at)
    ensures forall n: u32 :: LastUses(builds + [b], n) <==> if b.WithMaxUses? then b.uses == n else LastUses(builds, n)
  {
    var all := builds + [b];
    assert all[|builds|] == b;
    forall at: nat
      ensures LastExpiry(all, at) <==> if b.ExpiresAt? then b.at == at else LastExpiry(builds, at)
    {
      LastExpiryStep(builds, b, at);
    }
    forall n: u32
      ensures LastUses(all, n) <==> if b.WithMaxUses? then b.uses == n else LastUses(builds, n)
    {
      LastUsesStep(builds, b, n);
    }
  }

  lemma LastExpiryStep(builds: seq<Build>, b: Build, at: nat)
    ensures LastExpiry(builds + [b], at) <==> if b.ExpiresAt? then b.at == at else LastExpiry(builds, at)
  {
    var all := builds + [b];
    assert all[|builds|] == b;
    if !b.ExpiresAt? && LastExpiry(builds, at) {
      var i :| 0 <= i < |builds| && builds[i] == ExpiresAt(at) && forall j :: i < j < |builds| ==> !builds[j].ExpiresAt?;
      assert all[i] == ExpiresAt(at);
    }
    if !b.ExpiresAt? && LastExpiry(all, at) {
      var i :| 0 <= i < |all| && all[i] == ExpiresAt(at) && forall j :: i < j < |all| ==> !all[j].ExpiresAt?;
      assert builds[i] == ExpiresAt(at) && forall j :: i < j < |builds| ==> builds[j] == all[j];
    }
  }

  lemma LastUsesStep(builds: seq<Build>, b: Build, n: u32)
    ensures LastUses(builds + [b], n) <==> if b.WithMaxUses? then b.uses == n else LastUses(builds, n)
  {
    var all := builds + [b];
    assert all[|builds|] == b;
    if !b.WithMaxUses? && LastUses(builds, n) {
      var i :| 0 <= i < |builds| && builds[i] == WithMaxUses(n) && forall j :: i < j < |builds| ==> !builds[j].WithMaxUses?;
      assert all[i] == WithMaxUses(n);
    }
    if !b.WithMaxUses? && LastUses(all, n) {
      var i :| 0 <= i < |all| && all[i] == WithMaxUses(n) && forall j :: i < j < |all| ==> !all[j].WithMaxUses?;
      assert builds[i] == WithMaxUses(n) && forall j :: i < j < |builds| ==> builds[j] == all[j];
    }
  }

  /** A built grant carries the last expiry and the last number of uses it was given, and all its hops in order. */
  lemma {:induction false} BuiltTerms(token: string, scope: Scope, approver: string, executor: string, builds: seq<Build>)
    ensures var g := BuildAll(PendingGrant(token, scope, approver, executor), builds);
            && g.approvingActor == approver && g.chain == Hops(builds)
            && (forall at: nat :: g.expiresAt == Some(at) <==> LastExpiry(builds, at))
            && (forall n: u32 :: LastUses(builds, n) ==> g.maxUses == if n == 0 then 1 else n)
            && ((forall n: u32 :: !LastUses(builds, n)) ==> g.maxUses == 1)
  {
    if builds != [] {
      var init, last := builds[..|builds| - 1], builds[|builds| - 1];
      assert builds == init + [last];
      BuiltTerms(token, scope, approver, executor, init);
      HopsSnoc(init, last);
      LastStep(init, last);
      assert last.WithMaxUses? ==> LastUses(builds, last.uses);
      hide LastExpiry, LastUses, Hops;
      assert forall n: u32 :: !last.WithMaxUses? ==> (LastUses(builds, n) <==> LastUses(init, n));
    }
  }

  /** A revocation takes effect at once and is audited for the executor it was issued to, with the uses so far. */
  lemma RevocationIsAudited(m: Grants, ops: seq<Op>, token: string)
    requires token in m && IsFresh(m[token]) && NotReinserted(ops, token)
    ensures var g := m[token];
            var r := Answer(Run(m, ops), RevokeToken(token));
            && r.Ok?
            && r.value.token == g.token && r.value.scope == g.scope && r.value.status == Revoked
            && r.value.approvingActor == g.approvingActor && r.value.executingActor == g.approvedExecutor
            && (r.value.delegated <==> g.approvingActor != g.approvedExecutor)
            && r.value.uses == Successes(m, ops, token) && r.value.maxUses == g.maxUses
            && r.value.chain == AuditChain(g, g.approvedExecutor)
  {
    hide Run, Successes, AuditChain;
    GrantIsItsHistory(m, ops, token);
    SameChain(m[token], Run(m, ops)[token].(status := Revoked), m[token].approvedExecutor);
  }

  /** The hops of an audit: those of the grant, or its approval, and the execution when nobody named the executor. */
  lemma AuditChainIs(g: Grant, actor: string)
    ensures var chain := AuditChain(g, actor);
            var given := if g.chain == [] then [Hop(g.approvingActor, None, "approval granted")] else g.chain;
            var named := actor == g.approvingActor || exists i :: 0 <= i < |given| && given[i].actor == actor;
            && (named ==> chain == given)
            && (!named ==> chain == given + [Hop(actor, None, "delegated execution")])
  {
  }

  // --- Insertion ---

  lemma {:induction false} RunConcat(m: Grants, a: seq<Op>, b: seq<Op>)
    ensures Run(m, a + b) == Run(Run(m, a), b)
  {
    hide Step;
    if b == [] {
      assert a + b == a;
    } else {
      RunConcat(m, a, b[..|b| - 1]);
      assert (a + b)[..|a + b| - 1] == a + b[..|b| - 1];
    }
  }

  /** An insertion starts the history of its token anew, whatever became of an earlier grant, and touches no other. */
  lemma InsertionStartsAnew(m: Grants, before: seq<Op>, g: Grant, later: seq<Op>)
    requires IsFresh(g) && NotReinserted(later, g.token)
    ensures var now := Run(m, before + [InsertGrant(g)]);
            var end := Run(m, before + [InsertGrant(g)] + later);
            && now == Run(m, before)[g.token := g]
            && Successes(now, later, g.token) <= g.maxUses && g.token in end
            && end[g.token] == Aged(g, WasRevoked(later, g.token), Successes(now, later, g.token))
  {
    hide Aged, Successes;
    var runs := before + [InsertGrant(g)];
    assert runs[..|runs| - 1] == before;
    RunConcat(m, runs, later);
    GrantIsItsHistory(Run(m, runs), later, g.token);
  }
}
