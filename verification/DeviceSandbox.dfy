/** The sandbox profile generated for a command, and what it lets the command do. */
module DeviceSandbox {
  import opened ByteStrings
  import opened Options
  import opened DevicePolicy

  /** Seatbelt operations; `file-write*` is the two write operations together. */
  datatype Op = ProcessExec | ProcessFork | Signal | SysctlRead | FileRead | FileWriteData | FileWriteOther
              | MachLookup | NetworkOutbound | SystemSocket | AppleEventSend | IpcPosixShm | OtherOperation

  const ANY_WRITE := {FileWriteData, FileWriteOther}
  const FILES := {FileRead, FileWriteData, FileWriteOther}

  /** Something a process attempts: an operation on a path or a service, or a signal inside or outside its sandbox. */
  datatype Access = Access(op: Op, path: Bytes, service: string, sameSandbox: bool)

  datatype Filter = Anything | Literal(path: Bytes) | Subpath(param: Bytes) | EnvFiles | Services(names: set<string>) | SameSandbox

  datatype Rule = Rule(allow: bool, ops: set<Op>, filter: Filter)

  /** The rules in order, and the parameter definitions they refer to. */
  datatype Profile = Profile(rules: seq<Rule>, params: seq<(Bytes, Bytes)>)

  const SLASH: byte := 47
  const DOT: byte := 46
  const ENV: Bytes := Ascii("/.env")

  /** `(subpath root)`. */
  predicate Under(path: Bytes, root: Bytes) {
    path == root || root + [SLASH] <= path || (root == [SLASH] && root <= path)
  }

  /** The regular expression `/\.env(\.[^/]*)?$`. */
  predicate IsEnvFile(path: Bytes) {
    exists i | 0 <= i < |path| :: EndsInEnv(path[i..])
  }

  predicate EndsInEnv(tail: Bytes) {
    && ENV <= tail
    && (|tail| == 5 || (tail[5] == DOT && SLASH !in tail[6..]))
  }

  /** A file named `.env`, or `.env.` and anything, in the folder. */
  ghost predicate NamedEnv(path: Bytes, folder: Bytes, suffix: Bytes) {
    path == folder + ENV + suffix && (suffix == [] || (suffix[0] == DOT && SLASH !in suffix))
  }

  lemma EnvFileMeans(path: Bytes)
    ensures IsEnvFile(path) <==> exists folder, suffix :: NamedEnv(path, folder, suffix)
  {
    hide NamedEnv, EndsInEnv;
    if i :| 0 <= i < |path| && EndsInEnv(path[i..]) {
      EndsInEnvMeans(path[i..]);
      FolderOf(path, path[..i], path[i..]);
    }
    if folder, suffix :| NamedEnv(path, folder, suffix) {
      AfterFolder(path, folder, suffix);
      EndsInEnvMeans(path[|folder|..]);
    }
  }

  lemma FolderOf(path: Bytes, folder: Bytes, tail: Bytes)
    requires path == folder + tail && |tail| >= 5 && NamedEnv(tail, [], tail[5..])
    ensures NamedEnv(path, folder, tail[5..])
  {
    assert [] + ENV + tail[5..] == ENV + tail[5..];
    assert folder + (ENV + tail[5..]) == folder + ENV + tail[5..];
  }

  lemma AfterFolder(path: Bytes, folder: Bytes, suffix: Bytes)
    requires NamedEnv(path, folder, suffix)
    ensures |path| >= |folder| + 5 && NamedEnv(path[|folder|..], [], path[|folder|..][5..])
  {
    assert |ENV| == 5;
    var tail := path[|folder|..];
    assert tail == ENV + suffix && tail[5..] == suffix && [] + ENV + suffix == ENV + suffix;
  }

  lemma EndsInEnvMeans(tail: Bytes)
    ensures EndsInEnv(tail) <==> |tail| >= 5 && NamedEnv(tail, [], tail[5..])
  {
    assert |ENV| == 5;
    if |tail| >= 5 {
      assert tail == tail[..5] + tail[5..];
      assert [] + ENV + tail[5..] == ENV + tail[5..];
      assert ENV <= tail <==> tail == ENV + tail[5..];
      assert |tail| > 5 ==> tail[5..] == [tail[5]] + tail[6..];
    }
  }

  function Lookup(params: seq<(Bytes, Bytes)>, name: Bytes): Option<Bytes> {
    if params == [] then None
    else if params[0].0 == name then Some(params[0].1)
    else Lookup(params[1..], name)
  }

  predicate Applies(params: seq<(Bytes, Bytes)>, r: Rule, a: Access) {
    && a.op in r.ops
    && match r.filter
       case Anything => true
       case Literal(path) => a.path == path
       case Subpath(name) => (match Lookup(params, name) case Some(root) => Under(a.path, root) case None => false)
       case EnvFiles => IsEnvFile(a.path)
       case Services(names) => a.service in names
       case SameSandbox => a.sameSandbox
  }

  /** The last rule that applies decides. */
  predicate Permits(params: seq<(Bytes, Bytes)>, rules: seq<Rule>, a: Access) {
    if rules == [] then false
    else
      var last := rules[|rules| - 1];
      if Applies(params, last, a) then last.allow else Permits(params, rules[..|rules| - 1], a)
  }

  const ALL_OPS := {ProcessExec, ProcessFork, Signal, SysctlRead, FileRead, FileWriteData, FileWriteOther,
                    MachLookup, NetworkOutbound, SystemSocket, AppleEventSend, IpcPosixShm, OtherOperation}

  const TMP := Ascii("TMP")
  const CWD := Ascii("CWD")
  const DEV_NULL := Ascii("/dev/null")
  const LIBINFO := "com.apple.system.opendirectoryd.libinfo"
  const NETWORK_SERVICES := {"com.apple.dnssd.service", "com.apple.trustd", "com.apple.trustd.agent",
                             "com.apple.SystemConfiguration.configd"}

  const DENY_DEFAULT := Rule(false, ALL_OPS, Anything)

  const BASE_PROCESS: seq<Rule> := [
    Rule(true, {ProcessExec}, Anything),
    Rule(true, {ProcessFork}, Anything),
    Rule(true, {Signal}, SameSandbox),
    Rule(true, {SysctlRead}, Anything)]

  const BASE_FILES: seq<Rule> := [
    Rule(true, {FileRead}, Anything),
    Rule(true, {FileWriteData}, Literal(DEV_NULL)),
    Rule(true, ANY_WRITE, Subpath(TMP)),
    Rule(true, {MachLookup}, Services({LIBINFO}))]

  /** The rules of a command without any grant. */
  const BASE: seq<Rule> := [DENY_DEFAULT] + BASE_PROCESS + BASE_FILES

  const WRITABLE: seq<Rule> := [Rule(true, ANY_WRITE, Subpath(CWD))]

  const NETWORK: seq<Rule> := [
    Rule(true, {NetworkOutbound}, Anything),
    Rule(true, {SystemSocket}, Anything),
    Rule(true, {MachLookup}, Services(NETWORK_SERVICES))]

  const SYSTEM_SERVICES: seq<Rule> := [
    Rule(true, {MachLookup}, Anything),
    Rule(true, {AppleEventSend}, Anything),
    Rule(true, {IpcPosixShm}, Anything)]

  function ProtectedName(i: nat): Bytes {
    Ascii("PROTECTED_") + Decimal(i)
  }

  // ----- the profile -----

  function AllowanceRules(g: Grants): seq<Rule> {
    BASE + (if g.writable then WRITABLE else []) + (if g.network then NETWORK else []) + (if g.systemServices then SYSTEM_SERVICES else [])
  }

  /** The allowances, then one rule and one parameter for each of the first `n` protected paths. */
  function Protecting(g: Grants, cwd: Bytes, tmp: Bytes, protected: seq<Bytes>, n: nat): Profile
    requires n <= |protected|
  {
    if n == 0 then Profile(AllowanceRules(g), [(TMP, tmp), (CWD, cwd)])
    else
      var p, name := Protecting(g, cwd, tmp, protected, n - 1), ProtectedName(n - 1);
      Profile(p.rules + [Rule(false, FILES, Subpath(name))], p.params + [(name, protected[n - 1])])
  }

  const DENY_ENV_FILES := Rule(false, FILES, EnvFiles)

  function ProfileOf(g: Grants, cwd: Bytes, tmp: Bytes, protected: seq<Bytes>): Profile {
    var p := Protecting(g, cwd, tmp, protected, |protected|);
    p.(rules := p.rules + [DENY_ENV_FILES])
  }

  /** The profile lets the access through. */
  predicate Lets(p: Profile, a: Access) {
    Permits(p.params, p.rules, a)
  }

  // ----- what the profile is meant to allow -----

  /** What the allowances give, before any protection. */
  predicate Granted(g: Grants, cwd: Bytes, tmp: Bytes, a: Access) {
    || a.op in {ProcessExec, ProcessFork, SysctlRead, FileRead}
    || (a.op == Signal && a.sameSandbox)
    || (a.op == FileWriteData && a.path == DEV_NULL)
    || (a.op in ANY_WRITE && Under(a.path, tmp))
    || (a.op == MachLookup && a.service == LIBINFO)
    || (g.writable && a.op in ANY_WRITE && Under(a.path, cwd))
    || (g.network && (a.op in {NetworkOutbound, SystemSocket} || (a.op == MachLookup && a.service in NETWORK_SERVICES)))
    || (g.systemServices && a.op in {MachLookup, AppleEventSend, IpcPosixShm})
  }

  predicate ProtectedBy(protected: seq<Bytes>, path: Bytes) {
    exists i | 0 <= i < |protected| :: Under(path, protected[i])
  }

  predicate Allowed(g: Grants, cwd: Bytes, tmp: Bytes, protected: seq<Bytes>, a: Access) {
    Granted(g, cwd, tmp, a) && !(a.op in FILES && (ProtectedBy(protected, a.path) || IsEnvFile(a.path)))
  }

  // ----- building it -----

  /** Every parameter a rule refers to is defined. */
  ghost predicate Defined(params: seq<(Bytes, Bytes)>, rules: seq<Rule>) {
    forall r | r in rules && r.filter.Subpath? :: Lookup(params, r.filter.param).Some?
  }

  lemma {:induction false} LookupSnoc(params: seq<(Bytes, Bytes)>, d: (Bytes, Bytes), name: Bytes)
    ensures Lookup(params + [d], name)
            == if Lookup(params, name).Some? then Lookup(params, name) else if d.0 == name then Some(d.1) else None
  {
    if params != [] {
      assert (params + [d])[1..] == params[1..] + [d];
      LookupSnoc(params[1..], d, name);
    } else {
      assert ([d])[1..] == [];
    }
  }

  lemma PermitsSnoc(params: seq<(Bytes, Bytes)>, rules: seq<Rule>, r: Rule, a: Access)
    ensures Permits(params, rules + [r], a) == if Applies(params, r, a) then r.allow else Permits(params, rules, a)
  {
    assert (rules + [r])[..|rules|] == rules;
  }

  /** A new definition does not change what rules over the old ones decide. */
  lemma {:induction false} PermitsMoreParams(params: seq<(Bytes, Bytes)>, d: (Bytes, Bytes), rules: seq<Rule>, a: Access)
    requires Defined(params, rules)
    ensures Permits(params + [d], rules, a) == Permits(params, rules, a)
  {
    if rules != [] {
      var last := rules[|rules| - 1];
      assert last in rules;
      if last.filter.Subpath? {
        LookupSnoc(params, d, last.filter.param);
      }
      PermitsMoreParams(params, d, rules[..|rules| - 1], a);
    }
  }

  /** Allowances after rules that let something through: either lets it through. */
  lemma {:induction false} PermitsMoreAllowances(params: seq<(Bytes, Bytes)>, rules: seq<Rule>, more: seq<Rule>, a: Access)
    requires forall r | r in more :: r.allow
    ensures Permits(params, rules + more, a) <==> Permits(params, rules, a) || exists r | r in more :: Applies(params, r, a)
  {
    if more == [] {
      assert rules + more == rules;
    } else {
      var init, last := more[..|more| - 1], more[|more| - 1];
      assert rules + more == (rules + init) + [last] && more == init + [last];
      PermitsSnoc(params, rules + init, last, a);
      PermitsMoreAllowances(params, rules, init, a);
    }
  }

  /** The rules so far allow exactly what grants `g` give. */
  ghost predicate Gives(params: seq<(Bytes, Bytes)>, rules: seq<Rule>, g: Grants, cwd: Bytes, tmp: Bytes) {
    Defined(params, rules) && forall a :: Permits(params, rules, a) <==> Granted(g, cwd, tmp, a)
  }

  lemma BasePermits(params: seq<(Bytes, Bytes)>, tmp: Bytes, cwd: Bytes, a: Access)
    requires Lookup(params, TMP) == Some(tmp)
    ensures Permits(params, BASE, a) <==> Granted(NO_GRANTS, cwd, tmp, a)
  {
    hide Under, Lookup, Permits;
    NothingPermitted(params, a);
    PermitsMoreAllowances(params, [DENY_DEFAULT], BASE_PROCESS, a);
    PermitsMoreAllowances(params, [DENY_DEFAULT] + BASE_PROCESS, BASE_FILES, a);
    AnyOfFour(params, BASE_PROCESS, a);
    AnyOfFour(params, BASE_FILES, a);
  }

  lemma NothingPermitted(params: seq<(Bytes, Bytes)>, a: Access)
    ensures !Permits(params, [DENY_DEFAULT], a)
  {
    assert [DENY_DEFAULT][..0] == [];
  }

  lemma AnyOfFour(params: seq<(Bytes, Bytes)>, more: seq<Rule>, a: Access)
    requires |more| == 4
    ensures (exists r | r in more :: Applies(params, r, a)) <==>
      Applies(params, more[0], a) || Applies(params, more[1], a) || Applies(params, more[2], a) || Applies(params, more[3], a)
  {
    hide Applies;
  }

  lemma BaseGives(params: seq<(Bytes, Bytes)>, tmp: Bytes, cwd: Bytes)
    requires Lookup(params, TMP) == Some(tmp)
    ensures Gives(params, BASE, NO_GRANTS, cwd, tmp)
  {
    hide Permits, Granted, Lookup;
    forall a ensures Permits(params, BASE, a) <==> Granted(NO_GRANTS, cwd, tmp, a) { BasePermits(params, tmp, cwd, a); }
  }

  /** The rules of one grant, and the grants after it. */
  ghost predicate IsGrant(g: Grants, h: Grants, more: seq<Rule>) {
    || (more == WRITABLE && h == g.(writable := true))
    || (more == NETWORK && h == g.(network := true))
    || (more == SYSTEM_SERVICES && h == g.(systemServices := true))
  }

  lemma GrantPermits(params: seq<(Bytes, Bytes)>, rules: seq<Rule>, g: Grants, h: Grants, more: seq<Rule>, cwd: Bytes, tmp: Bytes, a: Access)
    requires Lookup(params, CWD) == Some(cwd) && IsGrant(g, h, more)
    requires Permits(params, rules, a) <==> Granted(g, cwd, tmp, a)
    ensures Permits(params, rules + more, a) <==> Granted(h, cwd, tmp, a)
  {
    hide Under, Lookup, Permits;
    PermitsMoreAllowances(params, rules, more, a);
    if |more| == 1 {
      assert (exists r | r in more :: Applies(params, r, a)) <==> Applies(params, more[0], a);
    } else {
      assert (exists r | r in more :: Applies(params, r, a)) <==>
        Applies(params, more[0], a) || Applies(params, more[1], a) || Applies(params, more[2], a);
    }
  }

  lemma GrantGives(params: seq<(Bytes, Bytes)>, rules: seq<Rule>, g: Grants, h: Grants, more: seq<Rule>, cwd: Bytes, tmp: Bytes)
    requires Lookup(params, CWD) == Some(cwd) && IsGrant(g, h, more) && Gives(params, rules, g, cwd, tmp)
    ensures Gives(params, rules + more, h, cwd, tmp)
  {
    hide Permits, Granted, Lookup;
    forall a ensures Permits(params, rules + more, a) <==> Granted(h, cwd, tmp, a) {
      GrantPermits(params, rules, g, h, more, cwd, tmp, a);
    }
  }

  lemma AllowancesGive(g: Grants, tmp: Bytes, cwd: Bytes)
    ensures Gives([(TMP, tmp), (CWD, cwd)], AllowanceRules(g), g, cwd, tmp)
  {
    hide Gives, Lookup;
    var params := [(TMP, tmp), (CWD, cwd)];
    var none: seq<Rule> := [];
    FirstParams(tmp, cwd);
    BaseGives(params, tmp, cwd);
    var writable := BASE + if g.writable then WRITABLE else none;
    assert Gives(params, writable, Grants(g.writable, false, false), cwd, tmp) by {
      if g.writable { GrantGives(params, BASE, NO_GRANTS, Grants(true, false, false), WRITABLE, cwd, tmp); } else { assert BASE + none == BASE; }
    }
    var network := writable + if g.network then NETWORK else none;
    assert Gives(params, network, Grants(g.writable, g.network, false), cwd, tmp) by {
      if g.network {
        GrantGives(params, writable, Grants(g.writable, false, false), Grants(g.writable, true, false), NETWORK, cwd, tmp);
      } else {
        assert writable + none == writable;
      }
    }
    if g.systemServices {
      GrantGives(params, network, Grants(g.writable, g.network, false), g, SYSTEM_SERVICES, cwd, tmp);
    } else {
      assert network + none == network;
    }
  }

  /** Writes the allowances a command's grants give. */
  method Allowances(g: Grants) returns (rules: seq<Rule>)
    ensures rules == AllowanceRules(g)
  {
    rules := BASE;
    if g.writable {
      rules := rules + WRITABLE;
    }
    if g.network {
      rules := rules + NETWORK;
    }
    if g.systemServices {
      rules := rules + SYSTEM_SERVICES;
    }
  }

  lemma FirstParams(tmp: Bytes, cwd: Bytes)
    ensures Lookup([(TMP, tmp), (CWD, cwd)], TMP) == Some(tmp) && Lookup([(TMP, tmp), (CWD, cwd)], CWD) == Some(cwd)
    ensures forall i: nat :: Lookup([(TMP, tmp), (CWD, cwd)], ProtectedName(i)) == None
  {
    var params := [(TMP, tmp), (CWD, cwd)];
    assert TMP[0] == 84 && CWD[0] == 67;
    forall name ensures Lookup(params, name) == if name == TMP then Some(tmp) else if name == CWD then Some(cwd) else None {
      assert params == [] + [(TMP, tmp)] + [(CWD, cwd)];
      LookupSnoc([], (TMP, tmp), name);
      LookupSnoc([] + [(TMP, tmp)], (CWD, cwd), name);
    }
    forall i: nat ensures ProtectedName(i) != TMP && ProtectedName(i) != CWD {
      assert ProtectedName(i)[0] == Ascii("PROTECTED_")[0] == 80;
    }
  }

  lemma ProtectedNamesDiffer(i: nat, j: nat)
    ensures ProtectedName(i) == ProtectedName(j) ==> i == j
  {
    if ProtectedName(i) == ProtectedName(j) {
      CutEqual(Ascii("PROTECTED_"), Decimal(i), Ascii("PROTECTED_"), Decimal(j));
      DecimalInjective(i, j);
    }
  }

  /** After `n` protections: what was allowed, except files under those paths. */
  ghost predicate ProtectsFirst(p: Profile, g: Grants, cwd: Bytes, tmp: Bytes, protected: seq<Bytes>, n: nat) {
    && n <= |protected| && Defined(p.params, p.rules)
    && (forall i: nat | i >= n :: Lookup(p.params, ProtectedName(i)) == None)
    && forall a :: Permits(p.params, p.rules, a)
         <==> Granted(g, cwd, tmp, a) && !(a.op in FILES && ProtectedBy(protected[..n], a.path))
  }

  lemma ProtectOne(p: Profile, g: Grants, cwd: Bytes, tmp: Bytes, protected: seq<Bytes>, n: nat)
    requires ProtectsFirst(p, g, cwd, tmp, protected, n) && n < |protected|
    ensures var name := ProtectedName(n);
            ProtectsFirst(Profile(p.rules + [Rule(false, FILES, Subpath(name))], p.params + [(name, protected[n])]),
                          g, cwd, tmp, protected, n + 1)
  {
    hide Under, IsEnvFile, Granted, Permits, Lookup, ProtectedName;
    var name := ProtectedName(n);
    var rule, d := Rule(false, FILES, Subpath(name)), (name, protected[n]);
    var params, rules := p.params + [d], p.rules + [rule];
    forall x ensures Lookup(params, x) == if Lookup(p.params, x).Some? then Lookup(p.params, x) else if x == name then Some(protected[n]) else None {
      LookupSnoc(p.params, d, x);
    }
    forall i: nat | i >= n + 1 ensures Lookup(params, ProtectedName(i)) == None {
      ProtectedNamesDiffer(i, n);
    }
    assert protected[..n + 1] == protected[..n] + [protected[n]];
    forall a ensures Permits(params, rules, a)
                     <==> Granted(g, cwd, tmp, a) && !(a.op in FILES && ProtectedBy(protected[..n + 1], a.path)) {
      PermitsSnoc(params, p.rules, rule, a);
      PermitsMoreParams(p.params, d, p.rules, a);
      ProtectedBySnoc(protected[..n], protected[n], a.path);
    }
  }

  lemma ProtectedBySnoc(protected: seq<Bytes>, root: Bytes, path: Bytes)
    ensures ProtectedBy(protected + [root], path) <==> ProtectedBy(protected, path) || Under(path, root)
  {
    hide Under;
    if Under(path, root) {
      assert (protected + [root])[|protected|] == root;
    }
    if ProtectedBy(protected, path) {
      var i :| 0 <= i < |protected| && Under(path, protected[i]);
      assert (protected + [root])[i] == protected[i];
    }
  }

  lemma {:induction false} ProtectingProtects(g: Grants, cwd: Bytes, tmp: Bytes, protected: seq<Bytes>, n: nat)
    requires n <= |protected|
    ensures ProtectsFirst(Protecting(g, cwd, tmp, protected, n), g, cwd, tmp, protected, n)
  {
    if n == 0 {
      hide Under, IsEnvFile, Granted, Permits, Lookup, ProtectedName, ProtectedBy, AllowanceRules;
      AllowancesGive(g, tmp, cwd);
      FirstParams(tmp, cwd);
      NothingProtected(protected);
    } else {
      hide ProtectsFirst;
      ProtectingProtects(g, cwd, tmp, protected, n - 1);
      ProtectOne(Protecting(g, cwd, tmp, protected, n - 1), g, cwd, tmp, protected, n - 1);
    }
  }

  lemma NothingProtected(protected: seq<Bytes>)
    ensures forall path :: !ProtectedBy(protected[..0], path)
  {
  }

  /** The profile for a command lets through exactly what its grants give, less every protected path and environment file. */
  lemma ProfileAllows(g: Grants, cwd: Bytes, tmp: Bytes, protected: seq<Bytes>, a: Access)
    ensures Lets(ProfileOf(g, cwd, tmp, protected), a) <==> Allowed(g, cwd, tmp, protected, a)
  {
    hide Under, IsEnvFile, Granted, Permits, Lookup, ProtectedName, ProtectedBy, Protecting;
    var p := Protecting(g, cwd, tmp, protected, |protected|);
    ProtectingProtects(g, cwd, tmp, protected, |protected|);
    assert protected[..|protected|] == protected;
    PermitsSnoc(p.params, p.rules, DENY_ENV_FILES, a);
  }

  /** Writes the rules and parameters of a command's profile. */
  method NewProfile(g: Grants, workingDir: Bytes, tempDir: Bytes, protected: seq<Bytes>) returns (p: Profile)
    ensures p == ProfileOf(g, workingDir, tempDir, protected)
    ensures forall a :: Lets(p, a) <==> Allowed(g, workingDir, tempDir, protected, a)
  {
    hide Allowed, Lets, AllowanceRules;
    var rules := Allowances(g);
    var params := [(TMP, tempDir), (CWD, workingDir)];
    for i := 0 to |protected|
      invariant Profile(rules, params) == Protecting(g, workingDir, tempDir, protected, i)
    {
      var name := ProtectedName(i);
      rules := rules + [Rule(false, FILES, Subpath(name))];
      params := params + [(name, protected[i])];
    }
    rules := rules + [DENY_ENV_FILES];
    p := Profile(rules, params);
    forall a ensures Lets(p, a) <==> Allowed(g, workingDir, tempDir, protected, a) {
      ProfileAllows(g, workingDir, tempDir, protected, a);
    }
  }

  // ----- what follows -----

  /** Whatever the grants and the protected list: the profile lets no protected path and no environment file be read or written. */
  lemma ProtectedIsOutOfReach(g: Grants, cwd: Bytes, tmp: Bytes, protected: seq<Bytes>, a: Access)
    requires a.op in FILES && (IsEnvFile(a.path) || exists i | 0 <= i < |protected| :: Under(a.path, protected[i]))
    ensures !Lets(ProfileOf(g, cwd, tmp, protected), a)
  {
    hide Under, IsEnvFile, Lets, ProfileOf;
    ProfileAllows(g, cwd, tmp, protected, a);
  }

  /** The profile of more grants lets through whatever the profile of fewer does. */
  lemma GrantsOnlyAdd(g: Grants, h: Grants, cwd: Bytes, tmp: Bytes, protected: seq<Bytes>, a: Access)
    requires h.Covers(g) && Lets(ProfileOf(g, cwd, tmp, protected), a)
    ensures Lets(ProfileOf(h, cwd, tmp, protected), a)
  {
    hide Under, IsEnvFile, Lets, ProfileOf;
    ProfileAllows(g, cwd, tmp, protected, a);
    ProfileAllows(h, cwd, tmp, protected, a);
  }

  /** Grants cover others exactly when their profile lets through all that the others' does, provided the working directory is not
      writable or protected anyway. */
  lemma CoversIffProfileDoes(g: Grants, h: Grants, cwd: Bytes, tmp: Bytes, protected: seq<Bytes>)
    requires !Under(cwd, tmp) && cwd != DEV_NULL && !IsEnvFile(cwd) && !ProtectedBy(protected, cwd)
    ensures h.Covers(g) <==>
            forall a :: Lets(ProfileOf(g, cwd, tmp, protected), a) ==> Lets(ProfileOf(h, cwd, tmp, protected), a)
  {
    hide Lets, ProfileOf, IsEnvFile, ProtectedBy;
    if h.Covers(g) {
      forall a | Lets(ProfileOf(g, cwd, tmp, protected), a) ensures Lets(ProfileOf(h, cwd, tmp, protected), a) {
        GrantsOnlyAdd(g, h, cwd, tmp, protected, a);
      }
    } else {
      var op := if g.writable && !h.writable then FileWriteData else if g.network && !h.network then NetworkOutbound else AppleEventSend;
      var a := Access(op, cwd, "", false);
      ProfileAllows(g, cwd, tmp, protected, a);
      ProfileAllows(h, cwd, tmp, protected, a);
      assert Lets(ProfileOf(g, cwd, tmp, protected), a) && !Lets(ProfileOf(h, cwd, tmp, protected), a);
    }
  }

  /** Under its profile, a command decided to run unapproved can do nothing that the profile of some allowlist entry matching
      it, which asks for no approval, would not let it do with the entry's own grants. */
  lemma RunStaysWithinItsRule(policy: CommandPolicy, program: Bytes, args: seq<Bytes>, requested: Option<Grants>,
                              cwd: Bytes, tmp: Bytes, protected: seq<Bytes>)
    requires Decide(policy, program, args, requested).Run?
    ensures exists i :: Allows(policy, i, program, args, requested) &&
              forall a | Lets(ProfileOf(Decide(policy, program, args, requested).grants, cwd, tmp, protected), a) ::
                Lets(ProfileOf(policy.rules[i].grants, cwd, tmp, protected), a)
  {
    hide Lets, ProfileOf, Decide;
    DecisionMeans(policy, program, args, requested);
    var g := Decide(policy, program, args, requested).grants;
    var i :| Allows(policy, i, program, args, requested) && policy.rules[i].grants.Covers(g);
    forall a | Lets(ProfileOf(g, cwd, tmp, protected), a) ensures Lets(ProfileOf(policy.rules[i].grants, cwd, tmp, protected), a) {
      GrantsOnlyAdd(g, policy.rules[i].grants, cwd, tmp, protected, a);
    }
  }
}
