/** The AppRole SecretID handed to the Vault secrets operator (internal/reconcilers/vault.go, ensureAppRoleSecretID). */
module AppRole {
  import opened Options

  /** The Kubernetes Secret: the SecretID under `id`, and the annotation recording the RoleID it was minted for. */
  datatype Secret = Secret(id: string, bound: string)

  /** The guard under which the stored SecretID is kept; a missing annotation reads as "". */
  predicate Keeps(secret: Option<Secret>, roleID: string) {
    secret.Some? && secret.value.id != "" && secret.value.bound == roleID && roleID != ""
  }

  /**
   Vault's side: the role's current RoleID, every RoleID it ever had, the role each SecretID was minted under, and the
   SecretIDs destroyed since.
   */
  datatype Vault = Vault(role: Option<string>, used: set<string>, minted: map<string, string>, destroyed: set<string>)

  // ----- one undisturbed call -----

  class Cluster {
    var vault: Vault
    var secret: Option<Secret>

    constructor (vault: Vault, secret: Option<Secret>)
      ensures this.vault == vault && this.secret == secret
    {
      this.vault := vault;
      this.secret := secret;
    }

    /** Vault mints under whatever role holds the name now; `id` is what it answers, None an error. */
    method GenerateSecretID(id: Option<string>) returns (r: Option<string>)
      modifies this`vault
      ensures r == if old(vault).role.Some? then id else None
      ensures vault == if r.Some? then old(vault).(minted := old(vault).minted[r.value := old(vault).role.value])
        else old(vault)
    {
      if vault.role.None? || id.None? {
        return None;
      }
      vault := vault.(minted := vault.minted[id.value := vault.role.value]);
      return id;
    }

    /** A SecretID is minted exactly when the stored one is absent, empty or bound to another RoleID. */
    method EnsureSecretID(refName: string, roleID: string, getFails: bool, id: Option<string>, applyFails: bool)
      returns (ok: bool)
      modifies this
      ensures refName == "" || getFails ==> !ok
      ensures var bound := old(secret).Some? && old(secret).value.id != "" && roleID != ""
                && old(secret).value.bound == roleID;
              && (refName == "" || getFails || bound ==> vault == old(vault) && secret == old(secret))
              && (refName != "" && !getFails && bound ==> ok)
              && (refName != "" && !getFails && !bound ==>
                    && (ok <==> old(vault).role.Some? && id.Some? && id.value != "" && !applyFails)
                    && secret == (if ok then Some(Secret(id.value, roleID)) else old(secret))
                    && vault == (if old(vault).role.Some? && id.Some? then
                                   old(vault).(minted := old(vault).minted[id.value := old(vault).role.value])
                                 else old(vault)))
    {
      if refName == "" || getFails {
        return false;
      }
      if Keeps(secret, roleID) {
        return true;
      }
      var generated := GenerateSecretID(id);
      if generated.None? || generated.value == "" || applyFails {
        return false;
      }
      secret := Some(Secret(generated.value, roleID));
      return true;
    }
  }

  // ----- passes, interleaved with everything that can happen around them -----

  /** Where the operator's pass stands: with the RoleID it read, past the guard, or holding a new SecretID. */
  datatype Phase = Idle | HasRole(roleID: string) | MustMint(roleID: string) | Holds(roleID: string, id: string)

  datatype State = State(vault: Vault, secret: Option<Secret>, phase: Phase)

  datatype Step =
    | EnsureRole(newID: string)         // keeps the role if it exists, else creates it under a new RoleID
    | Decide
    | Mint(id: string)
    | Apply
    | Abort                             // any error ends the pass
    | Reset(role: Option<string>)       // Vault or the role is wiped, perhaps recreated by someone else
    | Destroy(id: string)               // an administrator destroys a SecretID inside Vault
    | DeleteSecret
    | ClearID

  /** RoleIDs are random: a new one is neither an earlier one nor anything already written in the annotation. */
  predicate NewRole(s: State, roleID: string) {
    roleID != "" && roleID !in s.vault.used && (s.secret.Some? ==> s.secret.value.bound != roleID)
  }

  predicate Next(s: State, step: Step, s': State) {
    match step
    case EnsureRole(newID) =>
      && s.phase.Idle?
      && (s.vault.role.None? ==> NewRole(s, newID))
      && var vault := if s.vault.role.Some? then s.vault
          else s.vault.(role := Some(newID), used := s.vault.used + {newID});
         s' == s.(vault := vault, phase := HasRole(vault.role.value))
    case Decide =>
      s.phase.HasRole? && s' == s.(phase := if Keeps(s.secret, s.phase.roleID) then Idle else MustMint(s.phase.roleID))
    case Mint(id) =>
      && s.phase.MustMint? && s.vault.role.Some? && id != "" && id !in s.vault.minted
      && s' == s.(vault := s.vault.(minted := s.vault.minted[id := s.vault.role.value]),
          phase := Holds(s.phase.roleID, id))
    case Apply => s.phase.Holds? && s' == s.(secret := Some(Secret(s.phase.id, s.phase.roleID)), phase := Idle)
    case Abort => s' == s.(phase := Idle)
    case Reset(role) =>
      && (role.Some? ==> NewRole(s, role.value))
      && s' == s.(vault :=
          s.vault.(role := role, used := if role.Some? then s.vault.used + {role.value} else s.vault.used))
    case Destroy(id) => id in s.vault.minted && s' == s.(vault := s.vault.(destroyed := s.vault.destroyed + {id}))
    case DeleteSecret => s' == s.(secret := None)
    case ClearID => s.secret.Some? && s' == s.(secret := Some(s.secret.value.(id := "")))
  }

  ghost predicate Run(states: seq<State>, steps: seq<Step>) {
    |states| == |steps| + 1 && forall i :: 0 <= i < |steps| ==> Next(states[i], steps[i], states[i + 1])
  }

  /** The Secret claims to belong to the current role. */
  predicate BoundToCurrent(s: State) {
    s.vault.role.Some? && s.secret.Some? && s.secret.value.id != "" && Some(s.secret.value.bound) == s.vault.role
  }

  /** Logging in with the current RoleID and the stored SecretID works. */
  predicate Authenticates(s: State) {
    && s.secret.Some? && s.secret.value.id in s.vault.minted && s.vault.role == Some(s.vault.minted[s.secret.value.id])
    && s.secret.value.id !in s.vault.destroyed
  }

  predicate Destroyed(s: State) { s.secret.Some? && s.secret.value.id in s.vault.destroyed }

  /**
   A SecretID next to the RoleID it will be recorded under: right, or recorded under a RoleID that is gone for good.
   */
  predicate Honest(vault: Vault, id: string, roleID: string) {
    roleID in vault.used && id in vault.minted && (vault.minted[id] == roleID || vault.role != Some(roleID))
  }

  predicate Inv(s: State) {
    && s.vault.destroyed <= s.vault.minted.Keys
    && (s.vault.role.Some? ==> s.vault.role.value in s.vault.used && s.vault.role.value != "")
    && (s.secret.Some? && s.secret.value.id != "" && s.secret.value.bound in s.vault.used ==>
          Honest(s.vault, s.secret.value.id, s.secret.value.bound))
    && (!s.phase.Idle? ==>
        s.phase.roleID in s.vault.used && (s.vault.role != Some(s.phase.roleID) ==> !BoundToCurrent(s)))
    && (s.phase.MustMint? || s.phase.Holds? ==> !BoundToCurrent(s))
    && (s.phase.Holds? ==> s.phase.id != "" && Honest(s.vault, s.phase.id, s.phase.roleID))
  }

  /** A cluster the operator has not touched: any Vault, and at most a Secret someone made by hand. */
  predicate Init(s: State) {
    && s.phase.Idle? && s.vault.destroyed <= s.vault.minted.Keys
    && (s.vault.role.Some? ==> s.vault.role.value in s.vault.used && s.vault.role.value != "")
    && (s.secret.Some? ==> s.secret.value.bound !in s.vault.used)
  }

  lemma StepKeepsInv(s: State, step: Step, s': State)
    requires Inv(s) && Next(s, step, s')
    ensures Inv(s')
  {
  }

  lemma {:induction false} RunKeepsInv(states: seq<State>, steps: seq<Step>, n: nat)
    requires Run(states, steps) && Init(states[0]) && n < |states|
    ensures Inv(states[n])
  {
    hide Next;
    if n > 0 {
      RunKeepsInv(states, steps, n - 1);
      StepKeepsInv(states[n - 1], steps[n - 1], states[n]);
    } else {
      assert Inv(states[0]);
    }
  }

  /**
   In every reachable state a Secret bound to the current RoleID authenticates exactly unless its SecretID was
   destroyed.
   */
  lemma BoundAuthenticates(states: seq<State>, steps: seq<Step>, n: nat)
    requires Run(states, steps) && Init(states[0]) && n < |states|
    ensures BoundToCurrent(states[n]) ==> (Authenticates(states[n]) <==> !Destroyed(states[n]))
  {
    RunKeepsInv(states, steps, n);
  }

  /** A bound SecretID is never rotated: only an administrator's hand takes it away, whatever pass is under way. */
  lemma BoundIsKept(states: seq<State>, steps: seq<Step>, n: nat)
    requires Run(states, steps) && Init(states[0]) && n < |steps|
    requires BoundToCurrent(states[n]) && steps[n] !in {DeleteSecret, ClearID}
    ensures states[n + 1].secret == states[n].secret
    ensures !steps[n].Mint?
  {
    RunKeepsInv(states, steps, n);
    assert Next(states[n], steps[n], states[n + 1]);
  }

  /**
   A pass that lost a race with a reset is found out: what it writes counts as bound exactly when its RoleID is still
   current.
   */
  lemma ApplyExact(states: seq<State>, steps: seq<Step>, n: nat)
    requires Run(states, steps) && Init(states[0]) && n < |steps| && steps[n] == Apply
    ensures BoundToCurrent(states[n + 1]) <==> states[n].vault.role == Some(states[n].phase.roleID)
    ensures BoundToCurrent(states[n + 1]) ==>
      (Authenticates(states[n + 1]) <==> states[n].phase.id !in states[n].vault.destroyed)
  {
    RunKeepsInv(states, steps, n);
    assert Next(states[n], steps[n], states[n + 1]);
  }

  /**
   What the next undisturbed pass does, from every reachable state: a Secret that is absent, empty, stale, or minted
   across a reset ends up bound to the current RoleID and authenticating; a bound one is left alone. So the pass ends
   with a working Secret exactly unless it started from a bound one whose SecretID was destroyed, which the operator
   cannot see.
   */
  lemma UndisturbedPassRepairsIff(s0: State, newID: string, s1: State, s2: State, id: string, s3: State, s4: State)
    requires Inv(s0) && s0.phase.Idle?
    requires Next(s0, EnsureRole(newID), s1) && Next(s1, Decide, s2)
    requires if s2.phase.MustMint? then Next(s2, Mint(id), s3) && Next(s3, Apply, s4) else s4 == s2
    ensures s4.phase.Idle? && BoundToCurrent(s4)
    ensures Authenticates(s4) <==> !(BoundToCurrent(s0) && Destroyed(s0))
    ensures BoundToCurrent(s0) ==> s4 == s0
  {
    StepKeepsInv(s0, EnsureRole(newID), s1);
    StepKeepsInv(s1, Decide, s2);
  }

  /** Undisturbed, `EnsureSecretID` is a run of these steps, whatever fails on the way. */
  method EnsureIsItsSteps(c: Cluster, s: State, refName: string, getFails: bool, id: Option<string>, applyFails: bool)
    returns (ok: bool, states: seq<State>, steps: seq<Step>)
    requires c.vault == s.vault && c.secret == s.secret && s.phase.HasRole?
    requires id.Some? ==> id.value != "" && id.value !in s.vault.minted
    modifies c
    ensures Run(states, steps) && states[0] == s && states[|steps|] == State(c.vault, c.secret, Idle)
    ensures ok <==> Abort !in steps
  {
    var roleID := s.phase.roleID;
    ok := c.EnsureSecretID(refName, roleID, getFails, id, applyFails);
    var end := State(c.vault, c.secret, Idle);
    var decided := s.(phase := if Keeps(s.secret, roleID) then Idle else MustMint(roleID));
    if refName == "" || getFails {
      states, steps := [s, end], [Abort];
    } else if Keeps(s.secret, roleID) {
      states, steps := [s, end], [Decide];
    } else if s.vault.role.None? || id.None? {
      states, steps := [s, decided, end], [Decide, Abort];
    } else {
      var minted := State(c.vault, s.secret, Holds(roleID, id.value));
      assert Next(decided, Mint(id.value), minted);
      states, steps := [s, decided, minted, end], [Decide, Mint(id.value), if ok then Apply else Abort];
    }
  }

  /**
   A run from an untouched cluster to the one state that is not repaired: a pass binds a SecretID, an administrator
   destroys it in Vault, and the next pass, undisturbed, leaves everything as it is.
   */
  lemma DestroyedIsNotNoticed() returns (states: seq<State>, steps: seq<Step>)
    ensures Run(states, steps) && Init(states[0]) && |steps| == 7
    ensures steps[4].Destroy? && steps[5].EnsureRole? && steps[6] == Decide
    ensures BoundToCurrent(states[4]) && Authenticates(states[4])
    ensures BoundToCurrent(states[5]) && !Authenticates(states[5]) && states[7] == states[5]
  {
    var none, role := Vault(None, {}, map[], {}), Vault(Some("r"), {"r"}, map[], {});
    var minted := role.(minted := map["i" := "r"]);
    var bound := State(minted, Some(Secret("i", "r")), Idle);
    var broken := bound.(vault := minted.(destroyed := {"i"}));
    steps := [EnsureRole("r"), Decide, Mint("i"), Apply, Destroy("i"), EnsureRole(""), Decide];
    states := [State(none, None, Idle), State(role, None, HasRole("r")), State(role, None, MustMint("r")),
               State(minted, None, Holds("r", "i")), bound, broken, broken.(phase := HasRole("r")), broken];
  }
}
