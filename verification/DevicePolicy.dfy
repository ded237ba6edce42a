/** The Mac daemon's command policy: which commands run, need approval, or never run. */
module DevicePolicy {
  import opened ByteStrings
  import opened Options

  datatype Grants = Grants(writable: bool, network: bool, systemServices: bool) {
    /** At least the grants of `other`. */
    predicate Covers(other: Grants) {
      && (writable || !other.writable)
      && (network || !other.network)
      && (systemServices || !other.systemServices)
    }
  }

  const NO_GRANTS := Grants(false, false, false)

  datatype CommandRule = CommandRule(program: Bytes, argsPrefix: seq<Bytes>, allowExtraArgs: bool, grants: Grants, requiresApproval: bool) {
    predicate Matches(program: Bytes, args: seq<Bytes>) {
      && this.program == program
      && argsPrefix <= args
      && (allowExtraArgs || |args| == |argsPrefix|)
    }
  }

  datatype Decision = Run(grants: Grants) | NeedsApproval(grants: Grants) | Denied

  datatype CommandPolicy = CommandPolicy(deniedPrograms: set<Bytes>, rules: seq<CommandRule>)

  function Matching(rules: seq<CommandRule>, program: Bytes, args: seq<Bytes>): seq<CommandRule> {
    if rules == [] then []
    else (if rules[0].Matches(program, args) then [rules[0]] else []) + Matching(rules[1..], program, args)
  }

  predicate Runnable(rule: CommandRule, requested: Option<Grants>) {
    !rule.requiresApproval && (requested.None? || rule.grants.Covers(requested.value))
  }

  function FirstRunnable(rules: seq<CommandRule>, requested: Option<Grants>): Option<CommandRule> {
    if rules == [] then None
    else if Runnable(rules[0], requested) then Some(rules[0])
    else FirstRunnable(rules[1..], requested)
  }

  function Decide(policy: CommandPolicy, program: Bytes, args: seq<Bytes>, requested: Option<Grants>): Decision {
    if program in policy.deniedPrograms then Denied
    else
      var matching := Matching(policy.rules, program, args);
      match FirstRunnable(matching, requested)
      case Some(rule) => Run(if requested.Some? then requested.value else rule.grants)
      case None =>
        NeedsApproval(if requested.Some? then requested.value
                      else if matching != [] then matching[0].grants
                      else NO_GRANTS)
  }

  /** The rule lets the command run unapproved with the grants asked for. */
  predicate Fits(rule: CommandRule, program: Bytes, args: seq<Bytes>, requested: Option<Grants>) {
    rule.Matches(program, args) && Runnable(rule, requested)
  }

  ghost predicate Allows(policy: CommandPolicy, i: int, program: Bytes, args: seq<Bytes>, requested: Option<Grants>) {
    0 <= i < |policy.rules| && Fits(policy.rules[i], program, args, requested)
  }

  /** The first rule that fits, if any. */
  ghost predicate IsFirstFit(rules: seq<CommandRule>, program: Bytes, args: seq<Bytes>, requested: Option<Grants>, found: Option<CommandRule>) {
    match found
    case Some(rule) =>
      exists i | 0 <= i < |rules| ::
        rules[i] == rule && Fits(rules[i], program, args, requested) && forall j | 0 <= j < i :: !Fits(rules[j], program, args, requested)
    case None => forall i | 0 <= i < |rules| :: !Fits(rules[i], program, args, requested)
  }

  lemma FirstFitSkips(rules: seq<CommandRule>, program: Bytes, args: seq<Bytes>, requested: Option<Grants>, found: Option<CommandRule>)
    requires rules != [] && !Fits(rules[0], program, args, requested) && IsFirstFit(rules[1..], program, args, requested, found)
    ensures IsFirstFit(rules, program, args, requested, found)
  {
    hide Fits;
    var rest := rules[1..];
    if found.Some? {
      var i :| 0 <= i < |rest| && rest[i] == found.value && Fits(rest[i], program, args, requested)
        && forall j | 0 <= j < i :: !Fits(rest[j], program, args, requested);
      assert rules[i + 1] == found.value;
      forall j | 0 <= j < i + 1 ensures !Fits(rules[j], program, args, requested) {
        assert j > 0 ==> rules[j] == rest[j - 1];
      }
    } else {
      forall i | 0 <= i < |rules| ensures !Fits(rules[i], program, args, requested) {
        assert i > 0 ==> rules[i] == rest[i - 1];
      }
    }
  }

  lemma {:induction false} FirstRunnableIsFirst(rules: seq<CommandRule>, program: Bytes, args: seq<Bytes>, requested: Option<Grants>)
    ensures IsFirstFit(rules, program, args, requested, FirstRunnable(Matching(rules, program, args), requested))
  {
    if rules != [] {
      hide IsFirstFit;
      var rest := rules[1..];
      FirstRunnableIsFirst(rest, program, args, requested);
      if rules[0].Matches(program, args) {
        assert Matching(rules, program, args) == [rules[0]] + Matching(rest, program, args);
        assert ([rules[0]] + Matching(rest, program, args))[1..] == Matching(rest, program, args);
      } else {
        assert Matching(rules, program, args) == Matching(rest, program, args);
      }
      if Fits(rules[0], program, args, requested) {
        FirstFits(rules, program, args, requested);
      } else {
        FirstFitSkips(rules, program, args, requested, FirstRunnable(Matching(rest, program, args), requested));
      }
    }
  }

  lemma FirstFits(rules: seq<CommandRule>, program: Bytes, args: seq<Bytes>, requested: Option<Grants>)
    requires rules != [] && Fits(rules[0], program, args, requested)
    ensures IsFirstFit(rules, program, args, requested, Some(rules[0]))
  {
  }

  /** A rule is for its program, with its arguments first, and others after them only if it says so. */
  lemma MatchesMeans(rule: CommandRule, program: Bytes, args: seq<Bytes>)
    ensures rule.Matches(program, args) <==>
            rule.program == program && exists extra :: args == rule.argsPrefix + extra && (extra == [] || rule.allowExtraArgs)
  {
    if rule.Matches(program, args) {
      assert args == rule.argsPrefix + args[|rule.argsPrefix|..];
    }
  }

  ghost predicate IsFirstMatch(rules: seq<CommandRule>, i: int, program: Bytes, args: seq<Bytes>) {
    0 <= i < |rules| && rules[i].Matches(program, args) && forall j | 0 <= j < i :: !rules[j].Matches(program, args)
  }

  /** The grants an approver is asked about: those requested, else those of the first rule for the command, else none. */
  ghost predicate PutUp(policy: CommandPolicy, program: Bytes, args: seq<Bytes>, requested: Option<Grants>, grants: Grants) {
    && (requested.Some? ==> grants == requested.value)
    && (requested.None? && (exists i | 0 <= i < |policy.rules| :: policy.rules[i].Matches(program, args)) ==>
        exists i :: IsFirstMatch(policy.rules, i, program, args) && grants == policy.rules[i].grants)
    && (requested.None? && (forall i | 0 <= i < |policy.rules| :: !policy.rules[i].Matches(program, args)) ==>
        !grants.writable && !grants.network && !grants.systemServices)
  }

  lemma {:induction false} MatchingStartsWithFirst(rules: seq<CommandRule>, program: Bytes, args: seq<Bytes>) returns (i: int)
    ensures Matching(rules, program, args) == [] ==> forall j | 0 <= j < |rules| :: !rules[j].Matches(program, args)
    ensures Matching(rules, program, args) != [] ==>
              IsFirstMatch(rules, i, program, args) && Matching(rules, program, args)[0] == rules[i]
  {
    i := 0;
    if rules != [] && !rules[0].Matches(program, args) {
      var rest := rules[1..];
      var k := MatchingStartsWithFirst(rest, program, args);
      i := k + 1;
      assert Matching(rules, program, args) == Matching(rest, program, args);
      forall j | 1 <= j < |rules| ensures rules[j] == rest[j - 1] {}
      if Matching(rest, program, args) == [] {
        forall j | 0 <= j < |rules| ensures !rules[j].Matches(program, args) {
          assert j == 0 || rules[j] == rest[j - 1];
        }
      }
    }
  }

  /** A decision: denied programs never run; a command runs unapproved exactly when a matching rule that asks no approval
      covers what it asks for; and it gets the grants asked for, or those of the first such rule. Any other is put up for approval. */
  lemma DecisionMeans(policy: CommandPolicy, program: Bytes, args: seq<Bytes>, requested: Option<Grants>)
    ensures var d := Decide(policy, program, args, requested);
            && (d == Denied <==> program in policy.deniedPrograms)
            && (d.Run? <==> program !in policy.deniedPrograms && exists i :: Allows(policy, i, program, args, requested))
            && (d.Run? ==> exists i :: Allows(policy, i, program, args, requested) && policy.rules[i].grants.Covers(d.grants)
                                       && (forall j | 0 <= j < i :: !Allows(policy, j, program, args, requested))
                                       && (requested.None? ==> d.grants == policy.rules[i].grants))
            && (!d.Denied? && requested.Some? ==> d.grants == requested.value)
            && (d.NeedsApproval? ==> PutUp(policy, program, args, requested, d.grants))
  {
    FirstRunnableIsFirst(policy.rules, program, args, requested);
    var found := FirstRunnable(Matching(policy.rules, program, args), requested);
    if found.Some? {
      var i :| 0 <= i < |policy.rules| && policy.rules[i] == found.value && Fits(policy.rules[i], program, args, requested)
        && forall j | 0 <= j < i :: !Fits(policy.rules[j], program, args, requested);
      assert Allows(policy, i, program, args, requested);
    } else {
      var i := MatchingStartsWithFirst(policy.rules, program, args);
    }
  }
}
