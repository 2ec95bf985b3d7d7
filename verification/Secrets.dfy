/**
 The secret store against a plain map behind a lock. Key derivation and authenticated encryption
 are ideal: distinct passphrases or salts give distinct keys, and a sealed value opens under its
 own key only.
 */
module Secrets {
  import opened Common

  type Bytes = seq<nat>

  datatype Key = Derived(passphrase: string, salt: nat)
  datatype Sealed = Sealed(key: Key, nonce: nat, plaintext: Bytes)

  const CANARY_REFERENCE := "__canary__"
  const CANARY_PLAINTEXT: Bytes :=
      [116, 97, 108, 108, 121, 107, 101, 101, 112, 32, 99, 97, 110, 97, 114, 121, 32, 118, 49]

  function Encrypt(value: Bytes, key: Key, nonce: nat): Sealed
  {
    Sealed(key, nonce, value)
  }

  /** None stands for an invalid authentication tag. */
  function Decrypt(sealed: Sealed, key: Key): Option<Bytes>
  {
    if sealed.key == key then Some(sealed.plaintext) else None
  }

  datatype Op =
    | Initialize(passphrase: string, salt: nat, nonce: nat)
    | Unlock(passphrase: string)
    | Lock
    | IsUnlocked
    | ValidatePassphrase(passphrase: string)
    | SetSecret(reference: string, value: Bytes, nonce: nat)
    | GetSecret(reference: string)
    | DeleteSecret(reference: string)

  datatype Reply = Done | Value(bytes: Bytes) | Truth(b: bool) | AlreadyInitialized | NotInitialized
                 | WrongPassphrase | IsLocked | ReservedReference | Missing

  /////////////////////////////////////////////////////////////////////////////
  // The specification: a map behind a lock
  /////////////////////////////////////////////////////////////////////////////

  datatype Vault = Empty | Vault(passphrase: string, unlocked: bool, contents: map<string, Bytes>)

  function VaultStep(v: Vault, op: Op): (Vault, Reply)
  {
    match op
    case Initialize(p, _, _) => if v.Empty? then (Vault(p, true, map[]), Done) else (v, AlreadyInitialized)
    case Unlock(p) =>
      if v.Empty? then (v, NotInitialized)
      else if p == v.passphrase then (v.(unlocked := true), Done)
      else (v, WrongPassphrase)
    case Lock => (if v.Empty? then v else v.(unlocked := false), Done)
    case IsUnlocked => (v, Truth(v.Vault? && v.unlocked))
    case ValidatePassphrase(p) => (v, if v.Empty? then NotInitialized else Truth(p == v.passphrase))
    case SetSecret(r, value, _) =>
      if r == CANARY_REFERENCE then (v, ReservedReference)
      else if v.Empty? || !v.unlocked then (v, IsLocked)
      else (v.(contents := v.contents[r := value]), Done)
    case GetSecret(r) =>
      (v, if r == CANARY_REFERENCE then ReservedReference
          else if v.Empty? || !v.unlocked then IsLocked
          else if r in v.contents then Value(v.contents[r]) else Missing)
    case DeleteSecret(r) =>
      if r == CANARY_REFERENCE then (v, ReservedReference)
      else if v.Empty? || !v.unlocked then (v, IsLocked)
      else (v.(contents := v.contents - {r}), Done)
  }

  /////////////////////////////////////////////////////////////////////////////
  // The store
  /////////////////////////////////////////////////////////////////////////////

  datatype Store = Store(key: Option<Key>, salt: Option<nat>, secrets: map<string, Sealed>)

  const NEW_STORE := Store(None, None, map[])

  function StoreStep(s: Store, op: Op): (Store, Reply)
  {
    match op
    case Initialize(p, salt, nonce) =>
      if s.salt.Some? then (s, AlreadyInitialized)
      else
        var key := Derived(p, salt);
        (Store(Some(key), Some(salt), s.secrets[CANARY_REFERENCE := Encrypt(CANARY_PLAINTEXT, key, nonce)]), Done)
    case Unlock(p) =>
      if s.salt.None? || CANARY_REFERENCE !in s.secrets then (s, NotInitialized)
      else
        var key := Derived(p, s.salt.value);
        if Decrypt(s.secrets[CANARY_REFERENCE], key) != Some(CANARY_PLAINTEXT) then (s, WrongPassphrase)
        else (s.(key := Some(key)), Done)
    case Lock => (s.(key := None), Done)
    case IsUnlocked => (s, Truth(s.key.Some?))
    case ValidatePassphrase(p) =>
      (s, if s.salt.None? || CANARY_REFERENCE !in s.secrets then NotInitialized
          else Truth(Decrypt(s.secrets[CANARY_REFERENCE], Derived(p, s.salt.value)) == Some(CANARY_PLAINTEXT)))
    case SetSecret(r, value, nonce) =>
      if r == CANARY_REFERENCE then (s, ReservedReference)
      else if s.key.None? then (s, IsLocked)
      else (s.(secrets := s.secrets[r := Encrypt(value, s.key.value, nonce)]), Done)
    case GetSecret(r) =>
      (s, if r == CANARY_REFERENCE then ReservedReference
          else if s.key.None? then IsLocked
          else if r !in s.secrets then Missing
          else
            var plain := Decrypt(s.secrets[r], s.key.value);
            if plain.Some? then Value(plain.value) else WrongPassphrase)
    case DeleteSecret(r) =>
      if r == CANARY_REFERENCE then (s, ReservedReference)
      else if s.key.None? then (s, IsLocked)
      else (s.(secrets := s.secrets - {r}), Done)
  }

  /////////////////////////////////////////////////////////////////////////////
  // Refinement
  /////////////////////////////////////////////////////////////////////////////

  /** One key, from the first passphrase, seals the canary and every secret; it is the only key ever held. */
  ghost predicate OneKey(s: Store)
  {
    if s.salt.None? then s == NEW_STORE
    else
      && CANARY_REFERENCE in s.secrets
      && var master := s.secrets[CANARY_REFERENCE].key;
      && s.secrets[CANARY_REFERENCE].plaintext == CANARY_PLAINTEXT
      && master.salt == s.salt.value
      && (forall r :: r in s.secrets ==> s.secrets[r].key == master)
      && (s.key.Some? ==> s.key.value == master)
  }

  ghost function Abstract(s: Store): Vault
    requires OneKey(s)
  {
    if s.salt.None? then Empty
    else
      Vault(s.secrets[CANARY_REFERENCE].key.passphrase, s.key.Some?,
            map r | r in s.secrets && r != CANARY_REFERENCE :: s.secrets[r].plaintext)
  }

  lemma StepRefines(s: Store, op: Op)
    requires OneKey(s)
    ensures OneKey(StoreStep(s, op).0)
    ensures (Abstract(StoreStep(s, op).0), StoreStep(s, op).1) == VaultStep(Abstract(s), op)
  {
    var s', v := StoreStep(s, op).0, VaultStep(Abstract(s), op).0;
    if s'.salt.Some? {
      assert Abstract(s').contents == v.contents;
    }
  }

  ghost function StoreReplies(s: Store, ops: seq<Op>): seq<Reply>
    decreases ops
  {
    if ops == [] then [] else var (s', reply) := StoreStep(s, ops[0]); [reply] + StoreReplies(s', ops[1..])
  }

  ghost function VaultReplies(v: Vault, ops: seq<Op>): seq<Reply>
    decreases ops
  {
    if ops == [] then [] else var (v', reply) := VaultStep(v, ops[0]); [reply] + VaultReplies(v', ops[1..])
  }

  /** Over every run the store answers exactly as the plain map behind a lock. */
  lemma {:induction false} StoreRefinesVault(s: Store, ops: seq<Op>)
    requires OneKey(s)
    ensures StoreReplies(s, ops) == VaultReplies(Abstract(s), ops)
    decreases ops
  {
    if ops != [] {
      StepRefines(s, ops[0]);
      StoreRefinesVault(StoreStep(s, ops[0]).0, ops[1..]);
    }
  }

  /** A wrong passphrase changes nothing; locking and unlocking with the right one restores every value. */
  lemma LockUnlockRestores(s: Store, p: string, r: string)
    requires OneKey(s) && s.salt.Some? && s.key.Some?
    ensures p != Abstract(s).passphrase ==>
              StoreStep(StoreStep(s, Lock).0, Unlock(p)) == (StoreStep(s, Lock).0, WrongPassphrase)
    ensures p == Abstract(s).passphrase ==>
              StoreStep(StoreStep(StoreStep(s, Lock).0, Unlock(p)).0, GetSecret(r)).1 == StoreStep(s, GetSecret(r)).1
  {
    StepRefines(s, Lock);
    var locked := StoreStep(s, Lock).0;
    StepRefines(locked, Unlock(p));
    StepRefines(StoreStep(locked, Unlock(p)).0, GetSecret(r));
    StepRefines(s, GetSecret(r));
  }

  /** The store holds the value under the reference, sealed with its one key. */
  ghost predicate Holds(s: Store, r: string, value: Bytes)
  {
    OneKey(s) && s.salt.Some? && r in s.secrets && s.secrets[r].plaintext == value
  }

  predicate Writes(op: Op, r: string)
  {
    (op.SetSecret? || op.DeleteSecret?) && op.reference == r
  }

  ghost function StoreAfter(s: Store, ops: seq<Op>): Store
    decreases ops
  {
    if ops == [] then s else StoreAfter(StoreStep(s, ops[0]).0, ops[1..])
  }

  lemma {:induction false} HeldUntilWritten(s: Store, ops: seq<Op>, r: string, value: Bytes)
    requires Holds(s, r, value) && forall i :: 0 <= i < |ops| ==> !Writes(ops[i], r)
    ensures Holds(StoreAfter(s, ops), r, value)
    decreases ops
  {
    if ops != [] {
      StepRefines(s, ops[0]);
      assert Holds(StoreStep(s, ops[0]).0, r, value);
      forall i | 0 <= i < |ops[1..]| ensures !Writes(ops[1..][i], r) { assert ops[1..][i] == ops[i + 1]; }
      HeldUntilWritten(StoreStep(s, ops[0]).0, ops[1..], r, value);
    }
  }

  /** A value set is read back after any operations that do not write its reference, whenever the store is unlocked. */
  lemma LastSetIsRead(s: Store, r: string, value: Bytes, nonce: nat, ops: seq<Op>)
    requires OneKey(s) && s.key.Some? && r != CANARY_REFERENCE && forall i :: 0 <= i < |ops| ==> !Writes(ops[i], r)
    ensures var s' := StoreAfter(StoreStep(s, SetSecret(r, value, nonce)).0, ops);
            StoreStep(s', GetSecret(r)).1 == if s'.key.Some? then Value(value) else IsLocked
  {
    var s1 := StoreStep(s, SetSecret(r, value, nonce)).0;
    StepRefines(s, SetSecret(r, value, nonce));
    assert Holds(s1, r, value);
    HeldUntilWritten(s1, ops, r, value);
  }

  /** A locked store answers that it is locked and changes nothing. */
  lemma LockedRefuses(s: Store, r: string, value: Bytes, nonce: nat)
    requires s.key.None? && r != CANARY_REFERENCE
    ensures StoreStep(s, SetSecret(r, value, nonce)) == (s, IsLocked)
    ensures StoreStep(s, GetSecret(r)) == (s, IsLocked) && StoreStep(s, DeleteSecret(r)) == (s, IsLocked)
    ensures StoreStep(s, IsUnlocked) == (s, Truth(false))
  {
  }

  /** The canary's reference is never served. */
  lemma CanaryIsReserved(s: Store, value: Bytes, nonce: nat)
    ensures StoreStep(s, SetSecret("__canary__", value, nonce)) == (s, ReservedReference)
    ensures StoreStep(s, GetSecret("__canary__")) == (s, ReservedReference)
    ensures StoreStep(s, DeleteSecret("__canary__")) == (s, ReservedReference)
  {
  }

  /** The first passphrase, and no other, unlocks and validates; a second initialisation is refused. */
  lemma FirstPassphraseRules(first: string, salt: nat, nonce: nat, ops: seq<Op>, p: string, salt': nat, nonce': nat)
    ensures var s := StoreAfter(StoreStep(NEW_STORE, Initialize(first, salt, nonce)).0, ops);
            && StoreStep(s, Initialize(p, salt', nonce')) == (s, AlreadyInitialized)
            && StoreStep(s, ValidatePassphrase(p)) == (s, Truth(p == first))
            && (p == first ==> StoreStep(s, Unlock(p)).1 == Done && StoreStep(s, Unlock(p)).0.key.Some?)
            && (p != first ==> StoreStep(s, Unlock(p)) == (s, WrongPassphrase))
  {
    var s0 := StoreStep(NEW_STORE, Initialize(first, salt, nonce)).0;
    StepRefines(NEW_STORE, Initialize(first, salt, nonce));
    MasterStays(s0, ops, first);
  }

  lemma {:induction false} MasterStays(s: Store, ops: seq<Op>, first: string)
    requires OneKey(s) && s.salt.Some? && s.secrets[CANARY_REFERENCE].key.passphrase == first
    ensures var s' := StoreAfter(s, ops);
            OneKey(s') && s'.salt.Some? && s'.secrets[CANARY_REFERENCE].key.passphrase == first
    decreases ops
  {
    if ops != [] {
      StepRefines(s, ops[0]);
      MasterStays(StoreStep(s, ops[0]).0, ops[1..], first);
    }
  }

  /** A deleted value is gone and no other value is. */
  lemma DeletedIsMissing(s: Store, r: string, q: string)
    requires OneKey(s) && s.key.Some? && r != CANARY_REFERENCE && q != CANARY_REFERENCE
    ensures StoreStep(StoreStep(s, DeleteSecret(r)).0, GetSecret(q)).1 ==
            if q == r then Missing else StoreStep(s, GetSecret(q)).1
  {
  }

  class SecretStore {
    var key: Option<Key>
    var salt: Option<nat>
    var secrets: map<string, Sealed>

    constructor ()
      ensures View() == NEW_STORE && OneKey(View())
    {
      key, salt, secrets := None, None, map[];
    }

    function View(): Store
      reads this
    {
      Store(key, salt, secrets)
    }

    method InitializeStore(passphrase: string, newSalt: nat, nonce: nat) returns (reply: Reply)
      requires OneKey(View())
      modifies this
      ensures (View(), reply) == StoreStep(old(View()), Initialize(passphrase, newSalt, nonce)) && OneKey(View())
    {
      StepRefines(View(), Initialize(passphrase, newSalt, nonce));
      if salt.Some? { return AlreadyInitialized; }
      var derived := Derived(passphrase, newSalt);
      salt := Some(newSalt);
      secrets := secrets[CANARY_REFERENCE := Encrypt(CANARY_PLAINTEXT, derived, nonce)];
      key := Some(derived);
      return Done;
    }

    method UnlockStore(passphrase: string) returns (reply: Reply)
      requires OneKey(View())
      modifies this`key
      ensures (View(), reply) == StoreStep(old(View()), Unlock(passphrase)) && OneKey(View())
    {
      StepRefines(View(), Unlock(passphrase));
      if salt.None? { return NotInitialized; }
      var derived := Derived(passphrase, salt.value);
      if CANARY_REFERENCE !in secrets { return NotInitialized; }
      var plain := Decrypt(secrets[CANARY_REFERENCE], derived);
      if plain.None? { return WrongPassphrase; }
      if plain.value != CANARY_PLAINTEXT { return WrongPassphrase; }
      key := Some(derived);
      return Done;
    }

    /** Answers whether the passphrase is the first one, without keeping the derived key. */
    method Validate(passphrase: string) returns (reply: Reply)
      requires OneKey(View())
      ensures reply == VaultStep(Abstract(View()), ValidatePassphrase(passphrase)).1
    {
      StepRefines(View(), ValidatePassphrase(passphrase));
      if salt.None? { return NotInitialized; }
      var derived := Derived(passphrase, salt.value);
      if CANARY_REFERENCE !in secrets { return NotInitialized; }
      var plain := Decrypt(secrets[CANARY_REFERENCE], derived);
      if plain.None? { return Truth(false); }
      return Truth(plain.value == CANARY_PLAINTEXT);
    }

    method LockStore()
      requires OneKey(View())
      modifies this`key
      ensures View() == StoreStep(old(View()), Lock).0 && OneKey(View())
    {
      StepRefines(View(), Lock);
      key := None;
    }

    method Set(reference: string, value: Bytes, nonce: nat) returns (reply: Reply)
      requires OneKey(View())
      modifies this`secrets
      ensures (View(), reply) == StoreStep(old(View()), SetSecret(reference, value, nonce)) && OneKey(View())
    {
      StepRefines(View(), SetSecret(reference, value, nonce));
      if reference == CANARY_REFERENCE { return ReservedReference; }
      if key.None? { return IsLocked; }
      secrets := secrets[reference := Encrypt(value, key.value, nonce)];
      return Done;
    }

    method Get(reference: string) returns (reply: Reply)
      requires OneKey(View())
      ensures reply == VaultStep(Abstract(View()), GetSecret(reference)).1
    {
      StepRefines(View(), GetSecret(reference));
      if reference == CANARY_REFERENCE { return ReservedReference; }
      if key.None? { return IsLocked; }
      if reference !in secrets { return Missing; }
      var plain := Decrypt(secrets[reference], key.value);
      return if plain.Some? then Value(plain.value) else WrongPassphrase;
    }

    method Delete(reference: string) returns (reply: Reply)
      requires OneKey(View())
      modifies this`secrets
      ensures (View(), reply) == StoreStep(old(View()), DeleteSecret(reference)) && OneKey(View())
    {
      StepRefines(View(), DeleteSecret(reference));
      if reference == CANARY_REFERENCE { return ReservedReference; }
      if key.None? { return IsLocked; }
      secrets := secrets - {reference};
      return Done;
    }
  }
}
