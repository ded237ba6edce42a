/** Signed approvals: what a command's fingerprint covers, and the approvals waiting to be redeemed. */
module DeviceApproval {
  import opened ByteStrings
  import opened Options
  import opened DevicePolicy
  import opened Sizes

  /** All of a command that an approver agrees to; the timeout is in nanoseconds. */
  datatype CommandSpec = CommandSpec(program: Bytes, args: seq<Bytes>, workingDir: Bytes, timeout: nat, grants: Grants)

  function Millis(spec: CommandSpec): nat {
    spec.timeout / 1_000_000
  }

  /** What memory and the clock's types bound: lengths in 64 bits, milliseconds in 128. */
  ghost predicate Representable(s: CommandSpec) {
    && Fits64(s.program) && Fits64(s.workingDir) && (forall a | a in s.args :: Fits64(a))
    && |s.args| < Power256(8) && Millis(s) < Power256(16)
  }

  function Flag(b: bool): byte {
    if b then 1 else 0
  }

  function GrantBytes(g: Grants): Bytes {
    [Flag(g.writable), Flag(g.network), Flag(g.systemServices)]
  }

  /** The bytes the fingerprint hashes. */
  function Encoding(s: CommandSpec): Bytes {
    LengthPrefixed(s.program) + BigEndian(|s.args|, 8) + AllLengthPrefixed(s.args) + LengthPrefixed(s.workingDir)
    + BigEndian(Millis(s), 16) + GrantBytes(s.grants)
  }

  /** The same command, its timeout to the millisecond. */
  ghost predicate SameCommand(s: CommandSpec, t: CommandSpec) {
    s.program == t.program && s.args == t.args && s.workingDir == t.workingDir && s.grants == t.grants
    && s.timeout / 1_000_000 == t.timeout / 1_000_000
  }

  lemma EncodingTail(s: CommandSpec, t: CommandSpec)
    requires Representable(s) && Representable(t)
    requires LengthPrefixed(s.workingDir) + (BigEndian(Millis(s), 16) + GrantBytes(s.grants))
          == LengthPrefixed(t.workingDir) + (BigEndian(Millis(t), 16) + GrantBytes(t.grants))
    ensures s.workingDir == t.workingDir && Millis(s) == Millis(t) && s.grants == t.grants
  {
    hide LengthPrefixed;
    LengthPrefixedCancel(s.workingDir, BigEndian(Millis(s), 16) + GrantBytes(s.grants),
                         t.workingDir, BigEndian(Millis(t), 16) + GrantBytes(t.grants));
    CutEqual(BigEndian(Millis(s), 16), GrantBytes(s.grants), BigEndian(Millis(t), 16), GrantBytes(t.grants));
    BigEndianInjective(Millis(s), Millis(t), 16);
    var f, g := GrantBytes(s.grants), GrantBytes(t.grants);
    assert f[0] == g[0] && f[1] == g[1] && f[2] == g[2];
  }

  /** Commands with one encoding are the same command. */
  lemma EncodingDetermines(s: CommandSpec, t: CommandSpec)
    requires Representable(s) && Representable(t) && Encoding(s) == Encoding(t)
    ensures SameCommand(s, t)
  {
    hide LengthPrefixed, BigEndian, AllLengthPrefixed, Fits64, GrantBytes, Power256;
    var d := LengthPrefixed(s.workingDir) + (BigEndian(Millis(s), 16) + GrantBytes(s.grants));
    var e := LengthPrefixed(t.workingDir) + (BigEndian(Millis(t), 16) + GrantBytes(t.grants));
    assert Encoding(s) == LengthPrefixed(s.program) + (BigEndian(|s.args|, 8) + (AllLengthPrefixed(s.args) + d));
    assert Encoding(t) == LengthPrefixed(t.program) + (BigEndian(|t.args|, 8) + (AllLengthPrefixed(t.args) + e));
    LengthPrefixedCancel(s.program, BigEndian(|s.args|, 8) + (AllLengthPrefixed(s.args) + d),
                         t.program, BigEndian(|t.args|, 8) + (AllLengthPrefixed(t.args) + e));
    CutEqual(BigEndian(|s.args|, 8), AllLengthPrefixed(s.args) + d, BigEndian(|t.args|, 8), AllLengthPrefixed(t.args) + e);
    BigEndianInjective(|s.args|, |t.args|, 8);
    AllLengthPrefixedCancel(s.args, d, t.args, e);
    EncodingTail(s, t);
  }

  lemma {:induction false} AllLengthPrefixedSnoc(fields: seq<Bytes>, f: Bytes)
    ensures AllLengthPrefixed(fields + [f]) == AllLengthPrefixed(fields) + LengthPrefixed(f)
  {
    if fields == [] {
      assert AllLengthPrefixed([f]) == LengthPrefixed(f) + AllLengthPrefixed([]);
    } else {
      assert (fields + [f])[1..] == fields[1..] + [f];
      AllLengthPrefixedSnoc(fields[1..], f);
    }
  }

  /** Feeds a running hasher with every field; `sha` is the digest. */
  method Fingerprint(sha: Bytes -> Bytes, spec: CommandSpec) returns (digest: Bytes)
    ensures digest == sha(Encoding(spec))
  {
    hide LengthPrefixed, BigEndian, GrantBytes;
    var hash := LengthPrefixed(spec.program);
    hash := hash + BigEndian(|spec.args|, 8);
    ghost var start := hash;
    for i := 0 to |spec.args|
      invariant hash == start + AllLengthPrefixed(spec.args[..i])
    {
      AllLengthPrefixedSnoc(spec.args[..i], spec.args[i]);
      assert spec.args[..i + 1] == spec.args[..i] + [spec.args[i]];
      hash := hash + LengthPrefixed(spec.args[i]);
    }
    assert spec.args[..|spec.args|] == spec.args;
    hash := hash + LengthPrefixed(spec.workingDir);
    hash := hash + BigEndian(Millis(spec), 16);
    hash := hash + GrantBytes(spec.grants);
    digest := sha(hash);
  }

  /** What an approver displays and signs. */
  datatype Payload = Payload(approvalId: Bytes, device: Bytes, spec: CommandSpec, expiresAt: int)

  datatype Pending = Pending(fingerprint: Bytes, payload: Payload, expiresAt: int)

  datatype Approval = Approval(approvalId: Bytes, approverId: Bytes, signature: Bytes)

  datatype ApprovalError = TooManyPending | Expired | DifferentCommand | BadSignature

  datatype Redeemed = Approved(approverId: Bytes) | Refused(error: ApprovalError)

  type Entries = map<Bytes, Pending>

  function Live(entries: Entries, now: int): Entries {
    map id | id in entries && entries[id].expiresAt > now :: entries[id]
  }

  /** The answer to a redemption, from the entries before it. */
  function Verdict(entries: Entries, now: int, approval: Approval, fingerprint: Bytes,
                   verify: (Bytes, Payload, Bytes) -> bool): Redeemed {
    if approval.approvalId !in entries then Refused(Expired)
    else
      var p := entries[approval.approvalId];
      if p.expiresAt <= now then Refused(Expired)
      else if p.fingerprint != fingerprint then Refused(DifferentCommand)
      else if !verify(approval.approverId, p.payload, approval.signature) then Refused(BadSignature)
      else Approved(approval.approverId)
  }

  /** The approvals that are still waiting, by id. */
  class PendingApprovals {
    const ttl: nat
    const capacity: nat
    var entries: Entries

    ghost predicate Valid()
      reads this
    {
      |entries| <= capacity
    }

    constructor (ttl: nat, capacity: nat)
      ensures Valid() && this.ttl == ttl && this.capacity == capacity && entries == map[]
    {
      this.ttl, this.capacity, entries := ttl, capacity, map[];
    }

    /** Drops expired approvals, then adds one for `spec` unless too many wait; `id` is a new random id. */
    method Issue(now: int, id: Bytes, device: Bytes, spec: CommandSpec, sha: Bytes -> Bytes) returns (r: Option<Payload>)
      requires Valid() && id !in entries
      modifies this
      ensures Valid()
      ensures r.None? <==> |Live(old(entries), now)| >= capacity
      ensures r.None? ==> entries == Live(old(entries), now)
      ensures forall k | k != id :: k in entries <==> k in old(entries) && now < old(entries)[k].expiresAt
      ensures r.Some? ==> r.value == Payload(id, device, spec, now + ttl)
      ensures r.Some? ==> entries == Live(old(entries), now)[id := Pending(sha(Encoding(spec)), r.value, now + ttl)]
    {
      entries := Live(entries, now);
      LiveShrinks(old(entries), now);
      if |entries| >= capacity {
        return None;
      }
      var payload := Payload(id, device, spec, now + ttl);
      var fingerprint := Fingerprint(sha, spec);
      entries := entries[id := Pending(fingerprint, payload, now + ttl)];
      r := Some(payload);
    }

    /** Consumes the approval, even when it is then refused, and checks that it covers exactly `spec`. */
    method Redeem(now: int, approval: Approval, spec: CommandSpec, sha: Bytes -> Bytes,
                  verify: (Bytes, Payload, Bytes) -> bool) returns (r: Redeemed)
      requires Valid()
      modifies this
      ensures Valid()
      ensures entries == old(entries) - {approval.approvalId}
      ensures r == Verdict(old(entries), now, approval, sha(Encoding(spec)), verify)
      ensures r.Approved? <==>
              && approval.approvalId in old(entries) && now < old(entries)[approval.approvalId].expiresAt
              && old(entries)[approval.approvalId].fingerprint == sha(Encoding(spec))
              && verify(approval.approverId, old(entries)[approval.approvalId].payload, approval.signature)
    {
      if approval.approvalId !in entries {
        assert entries - {approval.approvalId} == entries;
        return Refused(Expired);
      }
      var pending := entries[approval.approvalId];
      RemovalShrinks(entries, approval.approvalId);
      entries := entries - {approval.approvalId};
      if pending.expiresAt <= now {
        return Refused(Expired);
      }
      var fingerprint := Fingerprint(sha, spec);
      if pending.fingerprint != fingerprint {
        return Refused(DifferentCommand);
      }
      if !verify(approval.approverId, pending.payload, approval.signature) {
        return Refused(BadSignature);
      }
      r := Approved(approval.approverId);
    }
  }

  lemma LiveShrinks(entries: Entries, now: int)
    ensures |Live(entries, now)| <= |entries|
  {
    SubsetSize(Live(entries, now).Keys, entries.Keys);
    assert |Live(entries, now)| == |Live(entries, now).Keys| && |entries| == |entries.Keys|;
  }

  lemma RemovalShrinks(entries: Entries, id: Bytes)
    ensures |entries - {id}| <= |entries|
  {
    SubsetSize((entries - {id}).Keys, entries.Keys);
    assert |entries - {id}| == |(entries - {id}).Keys| && |entries| == |entries.Keys|;
  }
}
