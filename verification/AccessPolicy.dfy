/** The access mode and its gate (`managed_access/policy.py`, `managed_access/ingress.py`,
    `memory_access/access_gate.py`, `runtime/application.py`). */
module AccessPolicy {
  import opened Schema
  import opened ManagedAuthority
  import opened ManagedContext

  datatype Mode = DirectLocal | ManagedExclusive | Disabled

  const SCHEMA_VERSION := "context-atomizer-library-access-policy-v1"

  function ModeName(mode: Mode): string {
    match mode
    case DirectLocal => "DIRECT_LOCAL"
    case ManagedExclusive => "MANAGED_EXCLUSIVE"
    case Disabled => "DISABLED"
  }

  /** What the policy file can hold. */
  datatype PolicyFile = Absent | Unreadable | Stored(keys: set<string>, version: string, mode: string)

  /** `LibraryAccessPolicyStore.mode`; `None` is its ValueError. */
  function ReadMode(f: PolicyFile): Option<Mode> {
    match f
    case Absent => Some(DirectLocal)
    case Unreadable => None
    case Stored(keys, version, mode) =>
      if keys != {"schema_version", "mode"} || version != SCHEMA_VERSION then None
      else if mode == ModeName(DirectLocal) then Some(DirectLocal)
      else if mode == ModeName(ManagedExclusive) then Some(ManagedExclusive)
      else if mode == ModeName(Disabled) then Some(Disabled)
      else None
  }

  function WriteMode(mode: Mode): PolicyFile {
    Stored({"schema_version", "mode"}, SCHEMA_VERSION, ModeName(mode))
  }

  /** A selected mode is read back, whatever the file held before. */
  lemma SelectedModeIsRead(mode: Mode)
    ensures ReadMode(WriteMode(mode)) == Some(mode)
  {
    assert "DIRECT_LOCAL" != "MANAGED_EXCLUSIVE" && "DIRECT_LOCAL" != "DISABLED"
      && "MANAGED_EXCLUSIVE" != "DISABLED" by {
      assert |"DIRECT_LOCAL"| == 12 && |"MANAGED_EXCLUSIVE"| == 17 && |"DISABLED"| == 8;
    }
  }

  /** How a mode is spelled in the file. */
  predicate Spelled(mode: Mode, name: string) {
    match mode
    case DirectLocal => name == "DIRECT_LOCAL"
    case ManagedExclusive => name == "MANAGED_EXCLUSIVE"
    case Disabled => name == "DISABLED"
  }

  /** A mode is read if and only if the file is absent and it is the direct one, or the file
      holds the two keys, this version of the schema, and the name of the mode. */
  lemma ModeIsReadIff(f: PolicyFile, mode: Mode)
    ensures ReadMode(f) == Some(mode) <==>
            || (f.Absent? && mode == DirectLocal)
            || (f.Stored? && f.keys == {"schema_version", "mode"}
                && f.version == "context-atomizer-library-access-policy-v1" && Spelled(mode, f.mode))
  {
    assert |"DIRECT_LOCAL"| == 12 && |"MANAGED_EXCLUSIVE"| == 17 && |"DISABLED"| == 8;
  }

  // ---------------------------------------------------------------- the gate

  datatype Caller = DirectFrontier | TrustedManager

  /** The gate resolves the mode at every decision; an unreadable policy disables access. */
  function GateMode(f: PolicyFile): Mode {
    var mode := ReadMode(f);
    if mode.None? then Disabled else mode.value
  }

  /** `PolicyBackedAccessGate.authorize`, with the registry after it. */
  function Authorized(c: Runtime, f: PolicyFile, r: Registry, caller: Caller, clock: Clock): (Registry, bool) {
    var mode := GateMode(f);
    if mode == Disabled then (r, false)
    else if caller == DirectFrontier then (r, mode == DirectLocal)
    else
      var (after, lease) := Observed(c, r, clock);
      (after, lease.Some? && lease.value.expiresAt > clock.wall)
  }

  /** Managed authority never widens what a direct caller may do, and a manager is let in
      exactly with a live lease while access is not disabled. */
  lemma GateIsExact(c: Runtime, f: PolicyFile, r: Registry, clock: Clock)
    ensures Authorized(c, f, r, DirectFrontier, clock).1 <==> ReadMode(f) == Some(DirectLocal)
    ensures Authorized(c, f, r, TrustedManager, clock).1 <==>
      ReadMode(f).Some? && ReadMode(f) != Some(Disabled) && Live(c, r, clock)
  {}

  /** A decision leaves the registry as it is, except that a manager let to the registry
      without a live session clears it. */
  lemma DecisionLeavesTheRegistry(c: Runtime, f: PolicyFile, r: Registry, caller: Caller, clock: Clock)
    ensures Authorized(c, f, r, caller, clock).0 ==
      if caller == TrustedManager && ReadMode(f).Some? && ReadMode(f) != Some(Disabled) && !Live(c, r, clock)
      then Registry(None, None, 0.0) else r
  {}

  // ---------------------------------------------------------------- states and steps

  type Thread = nat

  datatype State = State(file: PolicyFile, registry: Registry, pending: seq<PendingContext>, checked: set<Thread>)

  datatype Step =
    | SelectMode(mode: Mode)
    | RevokePairing
    | CheckMode(thread: Thread)
    | WriteLease(thread: Thread, lease: Lease, token: Token, clock: Clock)
    | ActivateAtOnce(lease: Lease, token: Token, clock: Clock)
    | OnRegistry(call: Call)

  /** `authority/activate` reads the mode and later writes the registry; `ActivateAtOnce` is
      the same without another step between. */
  function Next(c: Runtime, s: State, step: Step): State {
    match step
    case SelectMode(mode) => s.(file := WriteMode(mode), registry := REVOKED, pending := [])
    case RevokePairing => s.(registry := REVOKED, pending := [])
    case CheckMode(t) =>
      if ReadMode(s.file) == Some(ManagedExclusive) then s.(checked := s.checked + {t})
        else s.(checked := s.checked - {t})
    case WriteLease(t, lease, token, clock) =>
      if t !in s.checked then s
      else s.(registry := Activated(c, s.registry, lease, token, clock).0, checked := s.checked - {t})
    case ActivateAtOnce(lease, token, clock) =>
      if ReadMode(s.file) != Some(ManagedExclusive) then s
      else s.(registry := Activated(c, s.registry, lease, token, clock).0)
    case OnRegistry(call) => if call.operation.Activate? then s else s.(registry := Apply(c, s.registry, call))
  }

  function After(c: Runtime, s: State, steps: seq<Step>): State {
    if steps == [] then s else Next(c, After(c, s, steps[..|steps| - 1]), steps[|steps| - 1])
  }

  /** Selecting a mode, whichever it is, or losing the pairing leaves no session, no
      capability and no pending request; the mode selected is the mode read from then on. */
  lemma RevocationLeavesNothing(c: Runtime, s: State, mode: Mode)
    ensures var selected, unpaired := Next(c, s, SelectMode(mode)), Next(c, s, RevokePairing);
      && selected.registry == unpaired.registry == Registry(None, None, 0.0)
      && selected.pending == unpaired.pending == []
      && ReadMode(selected.file) == Some(mode) && unpaired.file == s.file
  {
    SelectedModeIsRead(mode);
  }

  /** A held session implies the managed-exclusive mode. */
  predicate Exclusive(s: State) {
    s.registry.session.Some? ==> ReadMode(s.file) == Some(ManagedExclusive)
  }

  lemma StepKeepsExclusive(c: Runtime, s: State, step: Step)
    requires Exclusive(s) && !step.WriteLease?
    ensures Exclusive(Next(c, s, step))
  {}

  /** Writing a checked lease keeps the exclusion if and only if the mode is still managed
      exclusive when it is written, or the registry refuses it. */
  lemma WriteKeepsExclusiveIff(c: Runtime, s: State, step: Step)
    requires Exclusive(s) && step.WriteLease? && step.thread in s.checked
    ensures Exclusive(Next(c, s, step)) <==>
            ReadMode(s.file) == Some(ManagedExclusive) || Activated(c, s.registry, step.lease, step.token,
              step.clock).1.Err?
  {}

  /** A write the registry accepts, of a lease checked in one mode and written in another. */
  predicate Overtaking(c: Runtime, s: State, step: Step) {
    && step.WriteLease? && step.thread in s.checked && ReadMode(s.file) != Some(ManagedExclusive)
    && Activated(c, s.registry, step.lease, step.token, step.clock).1.Ok?
  }

  lemma NextOfPrefix(c: Runtime, s: State, steps: seq<Step>, i: nat)
    requires i < |steps|
    ensures After(c, s, steps[..i + 1]) == Next(c, After(c, s, steps[..i]), steps[i])
  {
    assert steps[..i + 1][..i] == steps[..i];
  }

  lemma StepKeepsExclusiveIff(c: Runtime, s: State, step: Step)
    requires Exclusive(s)
    ensures Exclusive(Next(c, s, step)) <==> !Overtaking(c, s, step)
  {
    if step.WriteLease? {
      if step.thread in s.checked { WriteKeepsExclusiveIff(c, s, step); }
    } else {
      StepKeepsExclusive(c, s, step);
    }
  }

  /** A run stays exclusive throughout if and only if no write in it is overtaking. */
  lemma RunIsExclusiveIff(c: Runtime, s: State, steps: seq<Step>)
    requires Exclusive(s)
    ensures (forall i :: 0 <= i <= |steps| ==> Exclusive(After(c, s, steps[..i]))) <==>
            (forall i :: 0 <= i < |steps| ==> !Overtaking(c, After(c, s, steps[..i]), steps[i]))
  {
    if forall i :: 0 <= i <= |steps| ==> Exclusive(After(c, s, steps[..i])) {
      forall i | 0 <= i < |steps| ensures !Overtaking(c, After(c, s, steps[..i]), steps[i]) {
        NextOfPrefix(c, s, steps, i);
        assert Exclusive(After(c, s, steps[..i + 1]));
        StepKeepsExclusiveIff(c, After(c, s, steps[..i]), steps[i]);
      }
    }
    if forall i :: 0 <= i < |steps| ==> !Overtaking(c, After(c, s, steps[..i]), steps[i]) {
      forall i | 0 <= i <= |steps| ensures Exclusive(After(c, s, steps[..i])) {
        NotOvertakenIsExclusive(c, s, steps, i);
      }
    }
  }

  lemma {:induction false} NotOvertakenIsExclusive(c: Runtime, s: State, steps: seq<Step>, i: nat)
    requires Exclusive(s) && i <= |steps|
    requires forall k :: 0 <= k < |steps| ==> !Overtaking(c, After(c, s, steps[..k]), steps[k])
    ensures Exclusive(After(c, s, steps[..i]))
  {
    if i > 0 {
      NotOvertakenIsExclusive(c, s, steps, i - 1);
      NextOfPrefix(c, s, steps, i - 1);
      StepKeepsExclusiveIff(c, After(c, s, steps[..i - 1]), steps[i - 1]);
    }
  }

  predicate SelectsAnother(step: Step) {
    step.SelectMode? && step.mode != ManagedExclusive
  }

  /** The writer at `i` checked the mode at `j`, and no other mode was selected since. */
  predicate CheckedSince(steps: seq<Step>, j: nat, i: nat)
    requires j < i < |steps|
  {
    && steps[i].WriteLease? && steps[j] == CheckMode(steps[i].thread)
    && forall k :: j < k < i ==> !SelectsAnother(steps[k])
  }

  /** No other mode is selected between the check and the write of an activation; any other
      steps may come between them. */
  predicate Undisturbed(steps: seq<Step>) {
    forall i :: 0 <= i < |steps| && steps[i].WriteLease? ==> exists j :: 0 <= j < i && CheckedSince(steps, j, i)
  }

  /** From the check on, the thread is checked only in the exclusive mode. */
  lemma {:induction false} CheckStillHolds(c: Runtime, s: State, steps: seq<Step>, j: nat, i: nat, k: nat)
    requires j < k <= i < |steps| && CheckedSince(steps, j, i)
    ensures var t := After(c, s, steps[..k]);
            steps[i].thread in t.checked ==> ReadMode(t.file) == Some(ManagedExclusive)
  {
    NextOfPrefix(c, s, steps, k - 1);
    if k > j + 1 {
      CheckStillHolds(c, s, steps, j, i, k - 1);
      SelectedModeIsRead(ManagedExclusive);
    }
  }

  /** Undisturbed activations keep every run exclusive, however the steps interleave. */
  lemma UndisturbedRunsAreExclusive(c: Runtime, s: State, steps: seq<Step>)
    requires Exclusive(s) && Undisturbed(steps)
    ensures Exclusive(After(c, s, steps))
  {
    forall i | 0 <= i < |steps| ensures !Overtaking(c, After(c, s, steps[..i]), steps[i]) {
      if steps[i].WriteLease? {
        var j :| 0 <= j < i && CheckedSince(steps, j, i);
        CheckStillHolds(c, s, steps, j, i, i);
      }
    }
    RunIsExclusiveIff(c, s, steps);
    assert steps[..|steps|] == steps;
  }

  /** Another mode is selected only while no activation has been checked and not yet written. */
  ghost predicate SettledSelections(c: Runtime, s: State, steps: seq<Step>) {
    forall i :: 0 <= i < |steps| && SelectsAnother(steps[i]) ==> After(c, s, steps[..i]).checked == {}
  }

  lemma {:induction false} CheckedMeansExclusiveMode(c: Runtime, s: State, steps: seq<Step>, i: nat)
    requires s.checked == {} && SettledSelections(c, s, steps) && i <= |steps|
    ensures var t := After(c, s, steps[..i]); t.checked != {} ==> ReadMode(t.file) == Some(ManagedExclusive)
  {
    if i > 0 {
      CheckedMeansExclusiveMode(c, s, steps, i - 1);
      NextOfPrefix(c, s, steps, i - 1);
      SelectedModeIsRead(ManagedExclusive);
    }
  }

  /** When modes are selected only between activations, every run is exclusive, however the
      steps interleave. */
  lemma SettledRunsAreExclusive(c: Runtime, s: State, steps: seq<Step>)
    requires Exclusive(s) && s.checked == {} && SettledSelections(c, s, steps)
    ensures Exclusive(After(c, s, steps))
  {
    forall i | 0 <= i < |steps| ensures !Overtaking(c, After(c, s, steps[..i]), steps[i]) {
      CheckedMeansExclusiveMode(c, s, steps, i);
    }
    RunIsExclusiveIff(c, s, steps);
    assert steps[..|steps|] == steps;
  }

  /** A mode selected between the check and the write is overtaken: the session is then held
      in the new mode. */
  lemma SelectionCanBeOvertaken(c: Runtime, lease: Lease, token: Token, clock: Clock)
    requires lease.build == c.build && lease.instance == c.instance && lease.expiresAt > clock.wall
    ensures var start := State(WriteMode(ManagedExclusive), REVOKED, [], {});
      var end := After(c, start, [CheckMode(0), SelectMode(DirectLocal), WriteLease(0, lease, token, clock)]);
      Exclusive(start) && !Exclusive(end) && end.registry.session == Some(lease)
        && ReadMode(end.file) == Some(DirectLocal)
  {
    SelectedModeIsRead(ManagedExclusive);
    SelectedModeIsRead(DirectLocal);
    var steps := [CheckMode(0), SelectMode(DirectLocal), WriteLease(0, lease, token, clock)];
    assert steps[..2][..1] == steps[..1] && steps[..1][..0] == [];
    var start := State(WriteMode(ManagedExclusive), REVOKED, [], {});
    assert After(c, start, steps[..1]) == Next(c, start, CheckMode(0));
    assert After(c, start, steps[..2]) == Next(c, After(c, start, steps[..1]), SelectMode(DirectLocal));
  }

  predicate BothGranted(c: Runtime, s: State, clock: Clock) {
    && Authorized(c, s.file, s.registry, DirectFrontier, clock).1
    && Authorized(c, s.file, s.registry, TrustedManager, clock).1
  }

  /** While the exclusion holds, direct and managed access are never both granted; when it is
      broken by a live lease in direct mode, they are. */
  lemma NeverBothIff(c: Runtime, s: State, clock: Clock)
    ensures BothGranted(c, s, clock) <==> ReadMode(s.file) == Some(DirectLocal) && Live(c, s.registry, clock)
    ensures Exclusive(s) ==> !BothGranted(c, s, clock)
  {}

  // ---------------------------------------------------------------- the ingress

  class LibraryAccessPolicyStore {
    var file: PolicyFile

    constructor ()
      ensures file == Absent
    {
      file := Absent;
    }

    method Mode() returns (mode: Option<Mode>)
      ensures mode == ReadMode(file)
    {
      match file
      case Absent => mode := Some(DirectLocal);
      case Unreadable => mode := None;
      case Stored(keys, version, name) =>
        if keys != {"schema_version", "mode"} || version != SCHEMA_VERSION { return None; }
        if name == ModeName(DirectLocal) { return Some(DirectLocal); }
        if name == ModeName(ManagedExclusive) { return Some(ManagedExclusive); }
        if name == ModeName(Disabled) { return Some(Disabled); }
        mode := None;
    }

    /** The mode is read back from the new file. */
    method SetMode(mode: Mode)
      modifies this
      ensures file == WriteMode(mode) && ReadMode(file) == Some(mode)
    {
      file := WriteMode(mode);
      SelectedModeIsRead(mode);
    }
  }

  class ManagedRuntime {
    const policy: LibraryAccessPolicyStore
    const authority: ManagedAuthorityRegistry
    const broker: ManagedContextBroker

    constructor (runtime: Runtime)
      ensures fresh(policy) && fresh(authority) && fresh(broker) && authority.runtime == runtime
      ensures View() == State(Absent, REVOKED, [], {})
    {
      policy := new LibraryAccessPolicyStore();
      var registry := new ManagedAuthorityRegistry(runtime);
      authority := registry;
      broker := new ManagedContextBroker(registry);
    }

    function View(): State
      reads policy, authority, broker
    {
      State(policy.file, authority.View(), broker.pending, {})
    }

    /** `_set_access_mode`. */
    method SetAccessMode(mode: Mode)
      modifies policy, authority, broker
      ensures View() == Next(authority.runtime, old(View()), SelectMode(mode))
    {
      authority.Clear();
      broker.Revoke();
      policy.SetMode(mode);
    }

    /** `_revoke_managed_pairing`, once the pairing is gone. */
    method RevokeManagedPairing()
      modifies authority, broker
      ensures View() == Next(authority.runtime, old(View()), Step.RevokePairing)
    {
      authority.Clear();
      broker.Revoke();
    }

    /** `authority/activate` with a verified lease; `None` stands for its errors. */
    method Activate(lease: Lease, token: Token, clock: Clock) returns (capability: Option<Token>)
      modifies authority
      ensures View() == Next(authority.runtime, old(View()), ActivateAtOnce(lease, token, clock))
      ensures capability.Some? <==> ReadMode(policy.file) == Some(ManagedExclusive)
                                    && Activated(authority.runtime, old(authority.View()), lease, token, clock).1.Ok?
      ensures capability.Some? ==> authority.View() == Registry(Some(lease), capability, clock.steady)
    {
      var mode := policy.Mode();
      if mode != Some(ManagedExclusive) { return None; }
      var r := authority.Activate(lease, token, clock);
      capability := if r.Ok? then Some(r.value) else None;
    }

    /** `authority/revoke`: only the holder of the live capability revokes. */
    method RevokeAuthority(token: Token, clock: Clock) returns (done: bool)
      modifies authority, broker
      ensures done <==>
        Live(authority.runtime, old(authority.View()), clock) && old(authority.View()).capability == Some(token)
      ensures done ==> View() == Next(authority.runtime, old(View()), Step.RevokePairing)
      ensures !done ==> broker.pending == old(broker.pending) && policy.file == old(policy.file)
    {
      var r := authority.Require(token, None, None, None, clock);
      done := r.Ok?;
      if done {
        authority.Clear();
        broker.Revoke();
      }
    }

    /** `PolicyBackedAccessGate.authorize`. */
    method Authorize(caller: Caller, clock: Clock) returns (allowed: bool)
      modifies authority
      ensures (authority.View(), allowed) == Authorized(authority.runtime, policy.file, old(authority.View()), caller,
        clock)
    {
      var read := policy.Mode();
      var mode := if read.None? then Disabled else read.value;
      if mode == Disabled { return false; }
      if caller == DirectFrontier { return mode == DirectLocal; }
      var lease := authority.Authority(clock);
      allowed := lease.Some? && lease.value.expiresAt > clock.wall;
    }
  }
}
