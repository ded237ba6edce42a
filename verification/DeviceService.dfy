/** Executing commands on the device: every command that starts is justified, in every run of
    concurrent calls. A call decides, asks for an approval or takes a slot, redeems, and runs. */
module DeviceService {
  import opened ByteStrings
  import opened Options
  import opened DevicePolicy
  import opened DeviceApproval
  import opened Sizes

  /** The daemon's configuration; `verify` checks an approver's signature over a payload. */
  datatype Config = Config(policy: CommandPolicy, device: Bytes, hasApprovers: bool, ttl: nat, maxPending: nat, maxConcurrent: nat,
                           sha: Bytes -> Bytes, verify: (Bytes, Payload, Bytes) -> bool)

  datatype Request = Request(program: Bytes, args: seq<Bytes>, workingDir: Bytes, timeout: nat,
                             requested: Option<Grants>, approval: Option<Approval>)

  function SpecOf(q: Request, grants: Grants): CommandSpec {
    CommandSpec(q.program, q.args, q.workingDir, q.timeout, grants)
  }

  /** A call that holds a slot: about to redeem or start, or running. */
  datatype Call = Holding(q: Request, spec: CommandSpec, needsApproval: bool) | Running(spec: CommandSpec)

  datatype How = Allowlisted | ApprovedBy(approval: Approval)

  /** A command that was started, why, and when. */
  datatype Start = Start(spec: CommandSpec, how: How, requested: Option<Grants>, time: int)

  datatype State = State(now: int, entries: Entries, calls: map<nat, Call>,
                         // what happened so far: approvals issued, approvals consumed, commands started
                         issued: map<Bytes, Payload>, consumed: set<Bytes>, started: seq<Start>)

  datatype Action =
    | Tick(now: int)
    | Execute(call: nat, q: Request, freshId: Bytes)
    | Continue(call: nat)
    | Finish(call: nat)

  ghost predicate Init(s: State) {
    s.entries == map[] && s.calls == map[] && s.issued == map[] && s.consumed == {} && s.started == []
  }

  ghost predicate Enabled(g: Config, s: State, a: Action) {
    match a
    case Tick(now) => now >= s.now
    case Execute(call, q, freshId) => call !in s.calls && freshId !in s.issued && forall x: Grants :: Representable(SpecOf(q, x))
    case Continue(call) => call in s.calls && s.calls[call].Holding?
    case Finish(call) => call in s.calls && s.calls[call].Running?
  }

  /** The approval step of PendingApprovals.Issue, on values. */
  function DoIssue(g: Config, s: State, spec: CommandSpec, id: Bytes): State {
    var live := Live(s.entries, s.now);
    if |live| >= g.maxPending then s.(entries := live)
    else
      var payload := Payload(id, g.device, spec, s.now + g.ttl);
      s.(entries := live[id := Pending(g.sha(Encoding(spec)), payload, s.now + g.ttl)], issued := s.issued[id := payload])
  }

  /** The decision, then an approval request or a slot. */
  function DoExecute(g: Config, s: State, call: nat, q: Request, id: Bytes): State {
    match Decide(g.policy, q.program, q.args, q.requested)
    case Denied => s
    case Run(grants) =>
      if |s.calls| >= g.maxConcurrent then s
      else s.(calls := s.calls[call := Holding(q, SpecOf(q, grants), false)])
    case NeedsApproval(grants) =>
      if q.approval.None? then (if g.hasApprovers then DoIssue(g, s, SpecOf(q, grants), id) else s)
      else if |s.calls| >= g.maxConcurrent then s
      else s.(calls := s.calls[call := Holding(q, SpecOf(q, grants), true)])
  }

  /** Redeems the approval if one is needed, then starts the command or gives the slot back. */
  function DoContinue(g: Config, s: State, call: nat): State
    requires call in s.calls && s.calls[call].Holding?
  {
    var c := s.calls[call];
    if c.needsApproval && c.q.approval.Some? then
      var approval := c.q.approval.value;
      var r := s.(entries := s.entries - {approval.approvalId},
                  consumed := if approval.approvalId in s.entries then s.consumed + {approval.approvalId} else s.consumed);
      match Verdict(s.entries, s.now, approval, g.sha(Encoding(c.spec)), g.verify)
      case Refused(_) => r.(calls := s.calls - {call})
      case Approved(_) =>
        r.(calls := s.calls[call := Running(c.spec)],
           started := s.started + [Start(c.spec, ApprovedBy(approval), c.q.requested, s.now)])
    else
      s.(calls := s.calls[call := Running(c.spec)],
         started := s.started + [Start(c.spec, Allowlisted, c.q.requested, s.now)])
  }

  ghost function Next(g: Config, s: State, a: Action): State
    requires Enabled(g, s, a)
  {
    match a
    case Tick(now) => s.(now := now)
    case Execute(call, q, id) => DoExecute(g, s, call, q, id)
    case Continue(call) => DoContinue(g, s, call)
    case Finish(call) => s.(calls := s.calls - {call})
  }

  // ----- justification -----

  /** A matching allowlist entry that asks for no approval covers the grants. */
  ghost predicate AllowedByRule(g: Config, spec: CommandSpec, requested: Option<Grants>) {
    && Decide(g.policy, spec.program, spec.args, requested) == Run(spec.grants)
    && exists i :: Allows(g.policy, i, spec.program, spec.args, requested) && g.policy.rules[i].grants.Covers(spec.grants)
  }

  ghost predicate Collide(g: Config, s: CommandSpec, t: CommandSpec) {
    Encoding(s) != Encoding(t) && g.sha(Encoding(s)) == g.sha(Encoding(t))
  }

  /** The approval was issued for this command (or one whose fingerprint collides with it), signed, and not yet expired; and
      the command runs with the grants the policy puts up for approval. */
  ghost predicate AllowedByApproval(g: Config, issued: map<Bytes, Payload>, x: Start, approval: Approval) {
    && PutUp(g.policy, x.spec.program, x.spec.args, x.requested, x.spec.grants)
    && approval.approvalId in issued
    && var p := issued[approval.approvalId];
    && p.approvalId == approval.approvalId
    && x.time < p.expiresAt
    && g.verify(approval.approverId, p, approval.signature)
    && (SameCommand(p.spec, x.spec) || Collide(g, p.spec, x.spec))
  }

  ghost predicate Justified(g: Config, issued: map<Bytes, Payload>, x: Start) {
    && x.spec.program !in g.policy.deniedPrograms
    && match x.how
       case Allowlisted => AllowedByRule(g, x.spec, x.requested)
       case ApprovedBy(approval) => AllowedByApproval(g, issued, x, approval)
  }

  /** No approval starts two commands, and every one that started a command is consumed. */
  ghost predicate UsedOnce(started: seq<Start>, consumed: set<Bytes>) {
    && (forall i | 0 <= i < |started| && started[i].how.ApprovedBy? :: started[i].how.approval.approvalId in consumed)
    && forall i, j | 0 <= i < j < |started| && started[i].how.ApprovedBy? && started[j].how.ApprovedBy? ::
         started[i].how.approval.approvalId != started[j].how.approval.approvalId
  }

  // ----- what every step keeps -----

  /** A call holding a slot was decided as the policy says. */
  ghost predicate Decided(g: Config, c: Call) {
    c.Holding? ==>
      && Representable(c.spec)
      && c.spec == SpecOf(c.q, c.spec.grants)
      && Decide(g.policy, c.q.program, c.q.args, c.q.requested)
         == (if c.needsApproval then NeedsApproval(c.spec.grants) else Run(c.spec.grants))
      && (c.needsApproval ==> c.q.approval.Some?)
  }

  ghost predicate CallsInv(g: Config, calls: map<nat, Call>) {
    |calls| <= g.maxConcurrent && forall c | c in calls :: Decided(g, calls[c])
  }

  /** A waiting approval is one that was issued, with its own fingerprint, and not yet consumed. */
  ghost predicate EntrySound(g: Config, id: Bytes, e: Pending, issued: map<Bytes, Payload>, consumed: set<Bytes>) {
    && id in issued && id !in consumed
    && e.payload == issued[id] && e.expiresAt == issued[id].expiresAt && e.fingerprint == g.sha(Encoding(issued[id].spec))
  }

  ghost predicate EntriesInv(g: Config, entries: Entries, issued: map<Bytes, Payload>, consumed: set<Bytes>) {
    |entries| <= g.maxPending && forall id | id in entries :: EntrySound(g, id, entries[id], issued, consumed)
  }

  ghost predicate HistoryInv(g: Config, issued: map<Bytes, Payload>, consumed: set<Bytes>, started: seq<Start>) {
    && (forall id | id in issued :: Representable(issued[id].spec) && issued[id].approvalId == id)
    && consumed <= issued.Keys
    && (forall i | 0 <= i < |started| :: Justified(g, issued, started[i]))
    && UsedOnce(started, consumed)
  }

  ghost predicate Inv(g: Config, s: State) {
    CallsInv(g, s.calls) && EntriesInv(g, s.entries, s.issued, s.consumed) && HistoryInv(g, s.issued, s.consumed, s.started)
  }

  lemma CallFits(g: Config, calls: map<nat, Call>, call: nat, c: Call)
    requires CallsInv(g, calls) && Decided(g, c)
    ensures |calls| < g.maxConcurrent || call in calls ==> CallsInv(g, calls[call := c])
  {
    hide Decided;
    assert calls[call := c].Keys == calls.Keys + {call};
    assert |calls[call := c]| == |calls.Keys + {call}| && |calls| == |calls.Keys|;
    if call in calls {
      assert calls.Keys + {call} == calls.Keys;
    }
  }

  lemma CallLeaves(g: Config, calls: map<nat, Call>, call: nat)
    requires CallsInv(g, calls)
    ensures CallsInv(g, calls - {call})
  {
    hide Decided;
    SubsetSize((calls - {call}).Keys, calls.Keys);
    assert |calls - {call}| == |(calls - {call}).Keys| && |calls| == |calls.Keys|;
  }

  lemma LiveEntries(g: Config, s: State)
    requires EntriesInv(g, s.entries, s.issued, s.consumed)
    ensures EntriesInv(g, Live(s.entries, s.now), s.issued, s.consumed)
  {
    hide EntrySound;
    LiveShrinks(s.entries, s.now);
  }

  lemma NewEntry(g: Config, entries: Entries, issued: map<Bytes, Payload>, consumed: set<Bytes>, id: Bytes, p: Payload)
    requires EntriesInv(g, entries, issued, consumed) && id !in issued && consumed <= issued.Keys && |entries| < g.maxPending
    ensures EntriesInv(g, entries[id := Pending(g.sha(Encoding(p.spec)), p, p.expiresAt)], issued[id := p], consumed)
  {
    hide Encoding;
    var e := Pending(g.sha(Encoding(p.spec)), p, p.expiresAt);
    var more := entries[id := e];
    OneMore(entries, id, e);
    forall k | k in more ensures EntrySound(g, k, more[k], issued[id := p], consumed) {
      assert k != id ==> EntrySound(g, k, entries[k], issued, consumed);
    }
  }

  lemma IssueHistory(g: Config, issued: map<Bytes, Payload>, consumed: set<Bytes>, started: seq<Start>, id: Bytes, p: Payload)
    requires HistoryInv(g, issued, consumed, started) && id !in issued && Representable(p.spec) && p.approvalId == id
    ensures HistoryInv(g, issued[id := p], consumed, started)
  {
    hide Representable, SameCommand, Collide, AllowedByRule, UsedOnce;
    forall i | 0 <= i < |started| ensures Justified(g, issued[id := p], started[i]) {
      assert Justified(g, issued, started[i]);
    }
  }

  lemma IssueKeepsInv(g: Config, s: State, spec: CommandSpec, id: Bytes)
    requires Inv(g, s) && id !in s.issued && Representable(spec)
    ensures Inv(g, DoIssue(g, s, spec, id))
  {
    hide EntriesInv, Representable, CallsInv, Encoding, Justified;
    var p := Payload(id, g.device, spec, s.now + g.ttl);
    LiveEntries(g, s);
    if |Live(s.entries, s.now)| < g.maxPending {
      NewEntry(g, Live(s.entries, s.now), s.issued, s.consumed, id, p);
      IssueHistory(g, s.issued, s.consumed, s.started, id, p);
    }
  }

  lemma ExecuteKeepsInv(g: Config, s: State, call: nat, q: Request, id: Bytes)
    requires Inv(g, s) && Enabled(g, s, Execute(call, q, id))
    ensures Inv(g, DoExecute(g, s, call, q, id))
  {
    hide Decide, Representable, EntriesInv, HistoryInv, DoIssue;
    match Decide(g.policy, q.program, q.args, q.requested)
    case Denied =>
    case Run(grants) =>
      assert Representable(SpecOf(q, grants));
      CallFits(g, s.calls, call, Holding(q, SpecOf(q, grants), false));
    case NeedsApproval(grants) =>
      assert Representable(SpecOf(q, grants));
      if q.approval.None? {
        IssueKeepsInv(g, s, SpecOf(q, grants), id);
      } else {
        CallFits(g, s.calls, call, Holding(q, SpecOf(q, grants), true));
      }
  }

  /** Redeeming consumes the entry and only it. */
  lemma ConsumeKeeps(g: Config, s: State, id: Bytes)
    requires EntriesInv(g, s.entries, s.issued, s.consumed) && HistoryInv(g, s.issued, s.consumed, s.started)
    ensures var consumed := if id in s.entries then s.consumed + {id} else s.consumed;
            && EntriesInv(g, s.entries - {id}, s.issued, consumed)
            && HistoryInv(g, s.issued, consumed, s.started)
  {
    hide Encoding, Justified, Representable;
    RemovalShrinks(s.entries, id);
    var consumed := if id in s.entries then s.consumed + {id} else s.consumed;
    assert id in s.entries ==> EntrySound(g, id, s.entries[id], s.issued, s.consumed);
    forall k | k in s.entries - {id} ensures EntrySound(g, k, (s.entries - {id})[k], s.issued, consumed) {
      assert EntrySound(g, k, s.entries[k], s.issued, s.consumed);
    }
  }

  /** An approved redemption is for the command it was issued for. */
  lemma ApprovalJustifies(g: Config, s: State, c: Call, approval: Approval)
    requires Inv(g, s) && c.Holding? && Decided(g, c) && c.needsApproval
    requires Verdict(s.entries, s.now, approval, g.sha(Encoding(c.spec)), g.verify).Approved?
    ensures approval.approvalId in s.entries && approval.approvalId !in s.consumed
    ensures Justified(g, s.issued, Start(c.spec, ApprovedBy(approval), c.q.requested, s.now))
  {
    hide Representable, Encoding, Decide, UsedOnce;
    var id := approval.approvalId;
    assert EntrySound(g, id, s.entries[id], s.issued, s.consumed);
    var p := s.issued[id];
    if Encoding(p.spec) == Encoding(c.spec) {
      EncodingDetermines(p.spec, c.spec);
    }
    DecisionMeans(g.policy, c.q.program, c.q.args, c.q.requested);
  }

  lemma RuleJustifies(g: Config, s: State, c: Call)
    requires c.Holding? && Decided(g, c) && !c.needsApproval
    ensures Justified(g, s.issued, Start(c.spec, Allowlisted, c.q.requested, s.now))
  {
    hide Representable, Decide;
    DecisionMeans(g.policy, c.q.program, c.q.args, c.q.requested);
  }

  lemma StartHistory(g: Config, issued: map<Bytes, Payload>, consumed: set<Bytes>, started: seq<Start>, x: Start)
    requires HistoryInv(g, issued, consumed, started) && Justified(g, issued, x)
    requires x.how.ApprovedBy? ==> x.how.approval.approvalId in consumed
    requires forall i | 0 <= i < |started| && x.how.ApprovedBy? && started[i].how.ApprovedBy? ::
               started[i].how.approval.approvalId != x.how.approval.approvalId
    ensures HistoryInv(g, issued, consumed, started + [x])
  {
    hide Representable, Justified;
  }

  lemma ContinueKeepsInv(g: Config, s: State, call: nat)
    requires Inv(g, s) && call in s.calls && s.calls[call].Holding?
    ensures Inv(g, DoContinue(g, s, call))
  {
    hide Encoding, Representable, Decide, Verdict, EntriesInv, Justified;
    var c := s.calls[call];
    assert Decided(g, c);
    CallFits(g, s.calls, call, Running(c.spec));
    CallLeaves(g, s.calls, call);
    if c.needsApproval && c.q.approval.Some? {
      var approval := c.q.approval.value;
      var id := approval.approvalId;
      ConsumeKeeps(g, s, id);
      if Verdict(s.entries, s.now, approval, g.sha(Encoding(c.spec)), g.verify).Approved? {
        ApprovalJustifies(g, s, c, approval);
        StartHistory(g, s.issued, s.consumed + {id}, s.started, Start(c.spec, ApprovedBy(approval), c.q.requested, s.now));
      }
    } else {
      RuleJustifies(g, s, c);
      StartHistory(g, s.issued, s.consumed, s.started, Start(c.spec, Allowlisted, c.q.requested, s.now));
    }
  }

  lemma StepKeepsInv(g: Config, s: State, a: Action)
    requires Inv(g, s) && Enabled(g, s, a)
    ensures Inv(g, Next(g, s, a))
  {
    hide CallsInv, EntriesInv, HistoryInv, DoExecute, DoContinue;
    match a
    case Tick(now) =>
    case Execute(call, q, id) => ExecuteKeepsInv(g, s, call, q, id);
    case Continue(call) => ContinueKeepsInv(g, s, call);
    case Finish(call) => CallLeaves(g, s.calls, call);
  }

  // ----- whole runs -----

  ghost predicate IsRun(g: Config, states: seq<State>, actions: seq<Action>) {
    && |states| == |actions| + 1 && Init(states[0])
    && forall i | 0 <= i < |actions| :: Enabled(g, states[i], actions[i]) && states[i + 1] == Next(g, states[i], actions[i])
  }

  lemma {:induction false} RunInv(g: Config, states: seq<State>, actions: seq<Action>, n: nat)
    requires IsRun(g, states, actions) && n < |states|
    ensures Inv(g, states[n])
  {
    if n > 0 {
      hide Inv, Next, Enabled;
      RunInv(g, states, actions, n - 1);
      StepKeepsInv(g, states[n - 1], actions[n - 1]);
    }
  }

  /** In every run a command starts only if its program is not denied and either a no-approval rule covers its grants, or an
      unexpired approval signed for this very command (up to a fingerprint collision) was redeemed for it; no approval starts
      two commands; and waiting approvals and running commands stay within their limits. */
  lemma EveryStartIsJustified(g: Config, states: seq<State>, actions: seq<Action>, n: nat)
    requires IsRun(g, states, actions) && n < |states|
    ensures forall i | 0 <= i < |states[n].started| :: Justified(g, states[n].issued, states[n].started[i])
    ensures UsedOnce(states[n].started, states[n].consumed)
    ensures |states[n].entries| <= g.maxPending && |states[n].calls| <= g.maxConcurrent
  {
    hide IsRun, Justified, UsedOnce, EntrySound, Decided;
    RunInv(g, states, actions, n);
  }

  /** A waiting, unexpired approval goes only when a call that holds a slot presents it: a busy device,
      which turns calls away before they have a slot, leaves it as it was. */
  lemma OnlyARedeemingCallConsumes(g: Config, s: State, a: Action, id: Bytes)
    requires Inv(g, s) && Enabled(g, s, a) && id in s.entries && s.entries[id].expiresAt > s.now
    ensures || (id in Next(g, s, a).entries && Next(g, s, a).entries[id] == s.entries[id])
            || (a.Continue? && s.calls[a.call].needsApproval && s.calls[a.call].q.approval.value.approvalId == id)
  {
    hide Encoding, Decide, Verdict, HistoryInv;
    assert EntrySound(g, id, s.entries[id], s.issued, s.consumed);
    hide EntriesInv;
    if a.Continue? {
      assert Decided(g, s.calls[a.call]);
    }
  }

  /** With every slot taken, a call gets no slot, starts nothing, and leaves every live approval waiting, its own included. */
  lemma BusyDeviceTurnsAway(g: Config, s: State, call: nat, q: Request, id: Bytes)
    requires Inv(g, s) && Enabled(g, s, Execute(call, q, id)) && |s.calls| >= g.maxConcurrent
    ensures var r := Next(g, s, Execute(call, q, id));
            && r.calls == s.calls && r.started == s.started
            && forall k | k in Live(s.entries, s.now) :: k in r.entries && r.entries[k] == s.entries[k]
  {
    hide Decide, Inv, Encoding;
    forall k | k in Live(s.entries, s.now)
      ensures var r := Next(g, s, Execute(call, q, id)); k in r.entries && r.entries[k] == s.entries[k]
    {
      OnlyARedeemingCallConsumes(g, s, Execute(call, q, id), k);
    }
  }

  // ----- what is started -----

  lemma SameEncoding(s: CommandSpec, t: CommandSpec)
    requires SameCommand(s, t)
    ensures Encoding(s) == Encoding(t)
  {
  }

  /** The approval a call brings is waiting, unexpired, of this command's fingerprint and properly signed. */
  ghost predicate Redeems(g: Config, s: State, spec: CommandSpec, a: Approval) {
    && a.approvalId in s.entries && a.approvalId in s.issued && s.now < s.issued[a.approvalId].expiresAt
    && g.sha(Encoding(s.issued[a.approvalId].spec)) == g.sha(Encoding(spec))
    && g.verify(a.approverId, s.issued[a.approvalId], a.signature)
  }

  /** A call that holds a slot starts its command exactly when a rule needs no approval, or the approval it brings is waiting,
      unexpired, of this command's fingerprint and properly signed; otherwise it gives the slot back. */
  lemma HeldCallStartsIff(g: Config, s: State, call: nat)
    requires Inv(g, s) && Enabled(g, s, Continue(call))
    ensures var r, c := Next(g, s, Continue(call)), s.calls[call];
            && (c.needsApproval ==> c.q.approval.Some?)
            && (!c.needsApproval ==> r.started == s.started + [Start(c.spec, Allowlisted, c.q.requested, s.now)])
            && (c.needsApproval && Redeems(g, s, c.spec, c.q.approval.value) ==>
                r.started == s.started + [Start(c.spec, ApprovedBy(c.q.approval.value), c.q.requested, s.now)])
            && (c.needsApproval && !Redeems(g, s, c.spec, c.q.approval.value) ==> r.started == s.started && call !in r.calls)
            && (r.started != s.started ==> call in r.calls && r.calls[call] == Running(c.spec))
  {
    hide Encoding, HistoryInv, Representable, Decide;
    var c := s.calls[call];
    assert Decided(g, c);
    if c.needsApproval && c.q.approval.value.approvalId in s.entries {
      var id := c.q.approval.value.approvalId;
      assert EntrySound(g, id, s.entries[id], s.issued, s.consumed);
    }
  }

  /** A request gets a slot exactly when one is free, its program is not denied, and a rule lets it run or it brings an approval. */
  lemma GetsASlotIff(g: Config, s: State, call: nat, q: Request, id: Bytes)
    requires Enabled(g, s, Execute(call, q, id))
    ensures var r := Next(g, s, Execute(call, q, id));
            var allowed := exists i :: Allows(g.policy, i, q.program, q.args, q.requested);
            && r.started == s.started
            && (call in r.calls <==> |s.calls| < g.maxConcurrent && q.program !in g.policy.deniedPrograms && (allowed || q.approval.Some?))
            && (call in r.calls ==>
                && r.calls[call].Holding? && r.calls[call].q == q && (r.calls[call].needsApproval <==> !allowed)
                && r.calls[call].spec == CommandSpec(q.program, q.args, q.workingDir, q.timeout, r.calls[call].spec.grants)
                && (!allowed ==> PutUp(g.policy, q.program, q.args, q.requested, r.calls[call].spec.grants)))
  {
    hide Allows, Encoding, PutUp, DoIssue;
    IssuingStartsNothing(g, s, q, id);
    DecisionMeans(g.policy, q.program, q.args, q.requested);
    hide Decide;
  }

  lemma IssuingStartsNothing(g: Config, s: State, q: Request, id: Bytes)
    ensures forall x :: var r := DoIssue(g, s, SpecOf(q, x), id); r.started == s.started && r.calls == s.calls
  {
  }

  /** A request for approval is issued exactly when the program is not denied, no rule lets it run, it brings no approval, someone can
      approve and there is room; it is for the command asked for, and good for the time to live. */
  lemma IssuesIff(g: Config, s: State, call: nat, q: Request, id: Bytes)
    requires Inv(g, s) && Enabled(g, s, Execute(call, q, id))
    ensures var r := Next(g, s, Execute(call, q, id));
            var allowed := exists i :: Allows(g.policy, i, q.program, q.args, q.requested);
            && (id in r.issued <==>
                && q.program !in g.policy.deniedPrograms && !allowed && q.approval.None? && g.hasApprovers
                && |Live(s.entries, s.now)| < g.maxPending)
            && (id in r.issued ==>
                && r.issued[id].device == g.device && r.issued[id].approvalId == id && r.issued[id].expiresAt == s.now + g.ttl
                && r.issued[id].spec == CommandSpec(q.program, q.args, q.workingDir, q.timeout, r.issued[id].spec.grants)
                && PutUp(g.policy, q.program, q.args, q.requested, r.issued[id].spec.grants)
                && id in r.entries)
  {
    hide Allows, Encoding, PutUp, HistoryInv, EntriesInv, CallsInv;
    DecisionMeans(g.policy, q.program, q.args, q.requested);
    hide Decide;
  }

  /** From request to start: a command no rule lets run is put up for approval; brought back before its time to live is over with a
      signature over what was put up, while a slot is free, it starts, with the grants that were put up. */
  lemma ApprovedCommandStarts(g: Config, s: State, call: nat, q: Request, id: Bytes, later: int, approval: Approval, other: Bytes)
    requires Inv(g, s) && Enabled(g, s, Execute(call, q, id)) && q.approval.None?
    requires q.program !in g.policy.deniedPrograms && !exists i :: Allows(g.policy, i, q.program, q.args, q.requested)
    requires g.hasApprovers && |Live(s.entries, s.now)| < g.maxPending && |s.calls| < g.maxConcurrent
    requires s.now <= later < s.now + g.ttl && other !in s.issued && other != id
    requires approval.approvalId == id
    ensures var asked := Next(g, s, Execute(call, q, id));
            && id in asked.issued && Inv(g, asked) && Enabled(g, asked, Tick(later))
            && var waited := Next(g, asked, Tick(later));
            && var again := Execute(call, q.(approval := Some(approval)), other);
            && Enabled(g, waited, again)
            && var held := Next(g, waited, again);
            && Enabled(g, held, Continue(call))
            && (g.verify(approval.approverId, asked.issued[id], approval.signature) ==>
                Next(g, held, Continue(call)).started
                == s.started + [Start(asked.issued[id].spec, ApprovedBy(approval), q.requested, later)])
  {
    hide Inv, Encoding, Decide, Allows, PutUp, Representable;
    IssuesIff(g, s, call, q, id);
    GetsASlotIff(g, s, call, q, id);
    ExecuteKeepsInv(g, s, call, q, id);
    var asked := Next(g, s, Execute(call, q, id));
    var waited := Next(g, asked, Tick(later));
    StepKeepsInv(g, asked, Tick(later));
    var again := Execute(call, q.(approval := Some(approval)), other);
    SpecIgnoresApproval(q, approval);
    GetsASlotIff(g, waited, call, q.(approval := Some(approval)), other);
    StepKeepsInv(g, waited, again);
    HeldCallStartsIff(g, Next(g, waited, again), call);
  }

  lemma SpecIgnoresApproval(q: Request, approval: Approval)
    ensures forall x :: SpecOf(q.(approval := Some(approval)), x) == SpecOf(q, x)
  {
  }
}
