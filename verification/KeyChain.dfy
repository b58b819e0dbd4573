/** The key hierarchy and the account flows (core/vault-core/src/kdf.rs, keys.rs, envelope.rs,
    item.rs and account.rs).

    Cryptography is symbolic: a derived key is the derivation it came from, a ciphertext the
    sealing it came from, and opening one needs the same key, nonce and associated data. Random
    draws are parameters. The associated data, the padding and the recovery codes are the real
    byte strings. */
module KeyChain {
  import opened Wrappers
  import opened Numbers
  import opened Padding
  import opened AssociatedData
  import opened RecoveryCode

  const SALT_LEN := 16

  const MIN_MEMORY_KIB := 19 * 1024
  const MIN_ITERATIONS := 2
  const MIN_PARALLELISM := 1
  const MAX_MEMORY_KIB := 1024 * 1024
  const MAX_ITERATIONS := 64
  const MAX_PARALLELISM := 64

  datatype CryptoError =
    | InvalidKdfParams
    | Decrypt
    | Malformed
    | UnsupportedVersion(version: nat)

  // ---- Keys and ciphertexts

  datatype KdfParams = KdfParams(version: nat, memoryKib: nat, iterations: nat, parallelism: nat)

  /** Thirty-two random bytes: a Vault Key or a Recovery Key. */
  type KeyBytes = RecoveryKey
  type Nonce = seq<Byte>

  datatype Key =
    | Random(bytes: KeyBytes)
    | Master(password: string, salt: seq<Byte>, params: KdfParams)
    | AuthBranch(master: Key)
    | WrappingBranch(master: Key)
    | VerifierBranch(root: Key)

  datatype Ciphertext =
    | Sealed(key: Key, nonce: Nonce, aad: seq<Byte>, plaintext: seq<Byte>)
    | Forged(bytes: seq<Byte>)

  function Open(key: Key, nonce: Nonce, ciphertext: Ciphertext, aad: seq<Byte>): Result<seq<Byte>, CryptoError> {
    match ciphertext
    case Sealed(k, n, a, plaintext) =>
      if k == key && n == nonce && a == aad then Ok(plaintext) else Err(Decrypt)
    case Forged(_) => Err(Decrypt)
  }

  // ---- Key derivation

  function Validate(params: KdfParams): Result<(), CryptoError> {
    if params.version != 1 then Err(UnsupportedVersion(params.version))
    else if params.memoryKib < MIN_MEMORY_KIB || params.iterations < MIN_ITERATIONS
            || params.parallelism < MIN_PARALLELISM
    then Err(InvalidKdfParams)
    else if params.memoryKib > MAX_MEMORY_KIB || params.iterations > MAX_ITERATIONS
            || params.parallelism > MAX_PARALLELISM
    then Err(InvalidKdfParams)
    else Ok(())
  }

  function DeriveMasterKey(password: string, salt: seq<Byte>, params: KdfParams): Result<Key, CryptoError> {
    match Validate(params)
    case Err(error) => Err(error)
    case Ok(_) => if |salt| < 8 then Err(InvalidKdfParams) else Ok(Master(password, salt, params))
  }

  // ---- Wrapped keys

  datatype WrappedKey = WrappedKey(version: Version, purpose: WrapPurpose, nonce: Nonce, ciphertext: Ciphertext)

  const WRAP_VERSION: Version := 1

  function Wrap(key: Key, vaultKey: KeyBytes, purpose: WrapPurpose, nonce: Nonce): WrappedKey {
    WrappedKey(WRAP_VERSION, purpose, nonce, Sealed(key, nonce, WrapAad(WRAP_VERSION, purpose), vaultKey))
  }

  function Unwrap(key: Key, wrapped: WrappedKey, expected: WrapPurpose): Result<KeyBytes, CryptoError> {
    if wrapped.version != 1 then Err(UnsupportedVersion(wrapped.version))
    else if wrapped.purpose != expected then Err(Malformed)
    else
      match Open(key, wrapped.nonce, wrapped.ciphertext, WrapAad(wrapped.version, expected))
      case Err(_) => Err(Decrypt)
      case Ok(plaintext) => if |plaintext| == KEY_LEN then Ok(plaintext) else Err(Decrypt)
  }

  // ---- Items

  datatype EncryptedItem =
    EncryptedItem(version: Version, id: ItemId, revision: Revision, nonce: Nonce, ciphertext: Ciphertext)

  const ITEM_VERSION: Version := 2

  function EncryptItem(vaultKey: KeyBytes, id: ItemId, revision: Revision, plaintext: seq<Byte>, nonce: Nonce)
    : Result<EncryptedItem, CryptoError>
  {
    if |plaintext| > U32_MAX then Err(Malformed)
    else
      Ok(EncryptedItem(ITEM_VERSION, id, revision, nonce,
                       Sealed(Random(vaultKey), nonce, ItemAad(ITEM_VERSION, id, revision), Padded(plaintext))))
  }

  /** A record in the unpadded format that older clients wrote. */
  function EncryptItemV1(vaultKey: KeyBytes, id: ItemId, revision: Revision, plaintext: seq<Byte>, nonce: Nonce)
    : EncryptedItem
  {
    EncryptedItem(1, id, revision, nonce,
                  Sealed(Random(vaultKey), nonce, ItemAad(1, id, revision), plaintext))
  }

  function DecryptItem(vaultKey: KeyBytes, item: EncryptedItem): Result<seq<Byte>, CryptoError> {
    if item.version != 1 && item.version != 2 then Err(UnsupportedVersion(item.version))
    else
      match Open(Random(vaultKey), item.nonce, item.ciphertext, ItemAad(item.version, item.id, item.revision))
      case Err(_) => Err(Decrypt)
      case Ok(plain) =>
        if item.version == 2 then
          match UnpadPlaintext(plain)
          case Ok(plaintext) => Ok(plaintext)
          case Err(_) => Err(Malformed)
        else Ok(plain)
  }

  // ---- Account flows

  datatype Secrets = Secrets(authKey: Key, vaultKey: KeyBytes)

  datatype Bundle = Bundle(params: KdfParams, salt: seq<Byte>, authCredential: Key, verifier: Key,
                           masterWrapped: WrappedKey, recoveryWrapped: WrappedKey)

  datatype Registration = Registration(bundle: Bundle, secrets: Secrets, recoveryCode: string)

  /** What one flow draws from the random generator. */
  datatype Draws = Draws(recoveryKey: KeyBytes, masterNonce: Nonce, recoveryNonce: Nonce)

  function ToSalt(salt: seq<Byte>): Result<seq<Byte>, CryptoError> {
    if |salt| == SALT_LEN then Ok(salt) else Err(InvalidKdfParams)
  }

  function BuildRegistration(sum: Checksum, params: KdfParams, salt: seq<Byte>, newPassword: string,
                             vaultKey: KeyBytes, draws: Draws): Result<Registration, CryptoError>
  {
    match DeriveMasterKey(newPassword, salt, params)
    case Err(error) => Err(error)
    case Ok(master) =>
      var auth, wrapping := AuthBranch(master), WrappingBranch(master);
      var bundle := Bundle(params, salt, auth, VerifierBranch(Random(vaultKey)),
                           Wrap(wrapping, vaultKey, MasterWrap, draws.masterNonce),
                           Wrap(Random(draws.recoveryKey), vaultKey, RecoveryWrap, draws.recoveryNonce));
      Ok(Registration(bundle, Secrets(auth, vaultKey), Printed(sum, draws.recoveryKey)))
  }

  function Register(sum: Checksum, password: string, params: KdfParams, salt: seq<Byte>, vaultKey: KeyBytes,
                    draws: Draws): Result<Registration, CryptoError>
  {
    BuildRegistration(sum, params, salt, password, vaultKey, draws)
  }

  function LoginCredential(password: string, salt: seq<Byte>, params: KdfParams): Result<Key, CryptoError> {
    match DeriveMasterKey(password, salt, params)
    case Err(error) => Err(error)
    case Ok(master) => Ok(AuthBranch(master))
  }

  function Unlock(password: string, salt: seq<Byte>, params: KdfParams, masterWrapped: WrappedKey)
    : Result<Secrets, CryptoError>
  {
    match DeriveMasterKey(password, salt, params)
    case Err(error) => Err(error)
    case Ok(master) =>
      match Unwrap(WrappingBranch(master), masterWrapped, MasterWrap)
      case Err(error) => Err(error)
      case Ok(vaultKey) => Ok(Secrets(AuthBranch(master), vaultKey))
  }

  function RecoverAndRekey(sum: Checksum, code: string, recoveryWrapped: WrappedKey, newPassword: string,
                           salt: seq<Byte>, params: KdfParams, draws: Draws): Result<Registration, CryptoError>
  {
    match Parsed(sum, code)
    case Err(_) => Err(Malformed)
    case Ok(recoveryKey) =>
      match Unwrap(Random(recoveryKey), recoveryWrapped, RecoveryWrap)
      case Err(error) => Err(error)
      case Ok(vaultKey) =>
        match ToSalt(salt)
        case Err(error) => Err(error)
        case Ok(kept) => BuildRegistration(sum, params, kept, newPassword, vaultKey, draws)
  }

  function ChangePassword(sum: Checksum, secrets: Secrets, newPassword: string, salt: seq<Byte>,
                          params: KdfParams, draws: Draws): Result<Registration, CryptoError>
  {
    match ToSalt(salt)
    case Err(error) => Err(error)
    case Ok(kept) => BuildRegistration(sum, params, kept, newPassword, secrets.vaultKey, draws)
  }

  // ---- An account over time

  datatype Record = Record(item: EncryptedItem, plaintext: seq<Byte>)

  /** What the server stores for an account and what its owner holds: the password in force, the
      newest kit, the kits before it, and everything ever sealed. */
  datatype Account = Account(bundle: Bundle, password: string, kit: KeyBytes, spent: set<KeyBytes>,
                             records: seq<Record>)

  datatype Step =
    | Change(newPassword: string, params: KdfParams, draws: Draws)
    | Recover(code: string, newPassword: string, params: KdfParams, draws: Draws)
    | Seal(id: ItemId, revision: Revision, plaintext: seq<Byte>, nonce: Nonce, legacy: bool)

  function Rekeyed(account: Account, registration: Result<Registration, CryptoError>, newPassword: string,
                   draws: Draws): Account
  {
    match registration
    case Err(_) => account
    case Ok(r) =>
      account.(bundle := r.bundle, password := newPassword, kit := draws.recoveryKey,
               spent := account.spent + {account.kit})
  }

  function UnlockCurrent(account: Account): Result<Secrets, CryptoError> {
    var b := account.bundle;
    Unlock(account.password, b.salt, b.params, b.masterWrapped)
  }

  /** One step of the account; a flow that fails changes nothing. */
  function After(sum: Checksum, account: Account, step: Step): Account {
    var b := account.bundle;
    match step
    case Change(newPassword, params, draws) =>
      (match UnlockCurrent(account)
       case Err(_) => account
       case Ok(secrets) =>
         Rekeyed(account, ChangePassword(sum, secrets, newPassword, b.salt, params, draws), newPassword, draws))
    case Recover(code, newPassword, params, draws) =>
      var recovered := RecoverAndRekey(sum, code, b.recoveryWrapped, newPassword, b.salt, params, draws);
      Rekeyed(account, recovered, newPassword, draws)
    case Seal(id, revision, plaintext, nonce, legacy) =>
      match UnlockCurrent(account)
      case Err(_) => account
      case Ok(secrets) =>
        var sealedItem := if legacy then Ok(EncryptItemV1(secrets.vaultKey, id, revision, plaintext, nonce))
                          else EncryptItem(secrets.vaultKey, id, revision, plaintext, nonce);
        match sealedItem
        case Err(_) => account
        case Ok(item) => account.(records := account.records + [Record(item, plaintext)])
  }

  /** Random draws never repeat a Recovery Key. */
  predicate FreshDraws(account: Account, step: Step) {
    !step.Seal? ==> step.draws.recoveryKey != account.kit && step.draws.recoveryKey !in account.spent
  }

  function Run(sum: Checksum, account: Account, steps: seq<Step>): Account {
    if steps == [] then account
    else After(sum, Run(sum, account, steps[..|steps| - 1]), steps[|steps| - 1])
  }

  predicate FreshRun(sum: Checksum, account: Account, steps: seq<Step>) {
    forall k | 0 <= k < |steps| :: FreshDraws(Run(sum, account, steps[..k]), steps[k])
  }

  // ---- What every step keeps

  predicate BundleHolds(b: Bundle, password: string, kit: KeyBytes, vaultKey: KeyBytes, salt: seq<Byte>) {
    var master := Master(password, salt, b.params);
    && b.salt == salt && |salt| == SALT_LEN && Validate(b.params).Ok?
    && b.authCredential == AuthBranch(master)
    && b.verifier == VerifierBranch(Random(vaultKey))
    && b.masterWrapped == Wrap(WrappingBranch(master), vaultKey, MasterWrap, b.masterWrapped.nonce)
    && b.recoveryWrapped == Wrap(Random(kit), vaultKey, RecoveryWrap, b.recoveryWrapped.nonce)
  }

  predicate Intact(account: Account, vaultKey: KeyBytes, salt: seq<Byte>) {
    && BundleHolds(account.bundle, account.password, account.kit, vaultKey, salt)
    && account.kit !in account.spent
    && forall k | 0 <= k < |account.records| ::
         DecryptItem(vaultKey, account.records[k].item) == Ok(account.records[k].plaintext)
  }

  lemma Builds(sum: Checksum, params: KdfParams, salt: seq<Byte>, newPassword: string, vaultKey: KeyBytes,
               draws: Draws)
    requires |salt| == SALT_LEN
    ensures var built := BuildRegistration(sum, params, salt, newPassword, vaultKey, draws);
            && (built.Ok? <==> Validate(params).Ok?)
            && (built.Ok? ==> BundleHolds(built.value.bundle, newPassword, draws.recoveryKey, vaultKey, salt))
            && (built.Ok? ==> built.value.recoveryCode == Printed(sum, draws.recoveryKey))
  {
  }

  /** Only the password in force opens the vault or authenticates, and it opens the original key. */
  lemma PasswordUnlocksExactly(account: Account, vaultKey: KeyBytes, salt: seq<Byte>, password: string)
    requires Intact(account, vaultKey, salt)
    ensures var b := account.bundle;
            var unlocked := Unlock(password, b.salt, b.params, b.masterWrapped);
            && (unlocked.Ok? <==> password == account.password)
            && (LoginCredential(password, b.salt, b.params) == Ok(b.authCredential) <==> password == account.password)
            && (unlocked.Ok? ==> unlocked.value == Secrets(b.authCredential, vaultKey))
  {
    var b := account.bundle;
    var key := WrappingBranch(Master(password, salt, b.params));
    assert Unwrap(key, b.masterWrapped, MasterWrap).Ok? <==> password == account.password;
  }

  lemma KitUnwrapsExactly(account: Account, vaultKey: KeyBytes, salt: seq<Byte>, recoveryKey: KeyBytes)
    requires Intact(account, vaultKey, salt)
    ensures var unwrapped := Unwrap(Random(recoveryKey), account.bundle.recoveryWrapped, RecoveryWrap);
            && (unwrapped.Ok? <==> recoveryKey == account.kit)
            && (unwrapped.Ok? ==> unwrapped.value == vaultKey)
  {
  }

  /** A typed code recovers the account exactly when, up to separators, case and ambiguous
      characters, it is the newest kit's. */
  lemma KitRecoversExactly(sum: Checksum, account: Account, vaultKey: KeyBytes, salt: seq<Byte>, code: string,
                           newPassword: string, params: KdfParams, draws: Draws)
    requires Intact(account, vaultKey, salt)
    ensures var b := account.bundle;
            var recovered := RecoverAndRekey(sum, code, b.recoveryWrapped, newPassword, b.salt, params, draws);
            && (recovered.Ok? <==>
                Validate(params).Ok? && Base32.Folded(Cleaned(code)) == Cleaned(Printed(sum, account.kit)))
            && (recovered.Ok? ==>
                BundleHolds(recovered.value.bundle, newPassword, draws.recoveryKey, vaultKey, salt))
  {
    ParsesExactly(sum, code, account.kit);
    Builds(sum, params, salt, newPassword, vaultKey, draws);
    if Parsed(sum, code).Ok? {
      KitUnwrapsExactly(account, vaultKey, salt, Parsed(sum, code).value);
    }
  }

  lemma SealedItemsOpen(vaultKey: KeyBytes, id: ItemId, revision: Revision, plaintext: seq<Byte>, nonce: Nonce)
    ensures DecryptItem(vaultKey, EncryptItemV1(vaultKey, id, revision, plaintext, nonce)) == Ok(plaintext)
    ensures var item := EncryptItem(vaultKey, id, revision, plaintext, nonce);
            (item.Ok? <==> |plaintext| <= U32_MAX) && (item.Ok? ==> DecryptItem(vaultKey, item.value) == Ok(plaintext))
  {
    if |plaintext| <= U32_MAX {
      PadThenUnpad(plaintext);
    }
  }

  /** A registered account is intact. */
  lemma RegisteredIsIntact(sum: Checksum, password: string, params: KdfParams, salt: seq<Byte>,
                           vaultKey: KeyBytes, draws: Draws)
    requires |salt| == SALT_LEN
    ensures var registered := Register(sum, password, params, salt, vaultKey, draws);
            && (registered.Ok? <==> Validate(params).Ok?)
            && (registered.Ok? ==>
                Intact(Account(registered.value.bundle, password, draws.recoveryKey, {}, []), vaultKey, salt))
  {
    Builds(sum, params, salt, password, vaultKey, draws);
  }

  lemma StepKeepsIntact(sum: Checksum, account: Account, step: Step, vaultKey: KeyBytes, salt: seq<Byte>)
    requires Intact(account, vaultKey, salt) && FreshDraws(account, step)
    ensures Intact(After(sum, account, step), vaultKey, salt)
  {
    PasswordUnlocksExactly(account, vaultKey, salt, account.password);
    match step
    case Change(newPassword, params, draws) =>
      Builds(sum, params, salt, newPassword, vaultKey, draws);
    case Recover(code, newPassword, params, draws) =>
      KitRecoversExactly(sum, account, vaultKey, salt, code, newPassword, params, draws);
    case Seal(id, revision, plaintext, nonce, legacy) =>
      SealedItemsOpen(vaultKey, id, revision, plaintext, nonce);
  }

  /** What a step does to an intact account: a password change or a recovery takes effect exactly when
      its parameters are acceptable and, for a recovery, the code is the newest kit's; sealing adds
      exactly its own record; and what does not take effect changes nothing. */
  lemma StepTakesEffect(sum: Checksum, account: Account, step: Step, vaultKey: KeyBytes, salt: seq<Byte>)
    requires Intact(account, vaultKey, salt)
    ensures var next := After(sum, account, step);
            match step
            case Change(newPassword, params, draws) =>
              if Acceptable(params)
              then next.password == newPassword && next.kit == draws.recoveryKey && next.records == account.records
                   && next.spent == account.spent + {account.kit} && next.bundle.params == params
              else next == account
            case Recover(code, newPassword, params, draws) =>
              if Acceptable(params) && Parsed(sum, code) == Ok(account.kit)
              then next.password == newPassword && next.kit == draws.recoveryKey && next.records == account.records
                   && next.spent == account.spent + {account.kit} && next.bundle.params == params
              else next == account
            case Seal(id, revision, plaintext, nonce, legacy) =>
              if legacy || |plaintext| <= U32_MAX
              then exists item: EncryptedItem ::
                     next == account.(records := account.records + [Record(item, plaintext)])
                     && item.id == id && item.revision == revision && item.version == if legacy then 1 else 2
              else next == account
  {
    PasswordUnlocksExactly(account, vaultKey, salt, account.password);
    match step
    case Change(newPassword, params, draws) =>
      ChangesExactly(sum, Secrets(account.bundle.authCredential, vaultKey), newPassword, salt, params, draws);
    case Recover(code, newPassword, params, draws) =>
      RecoveryRefusesExactly(sum, code, account.bundle.recoveryWrapped, newPassword, salt, params, draws);
      if Parsed(sum, code).Ok? {
        KitUnwrapsExactly(account, vaultKey, salt, Parsed(sum, code).value);
      }
    case Seal(id, revision, plaintext, nonce, legacy) =>
      if legacy {
        assert EncryptItemV1(vaultKey, id, revision, plaintext, nonce).id == id;
      } else if |plaintext| <= U32_MAX {
        assert EncryptItem(vaultKey, id, revision, plaintext, nonce).value.id == id;
      }
  }

  lemma StepsOnlyAdd(sum: Checksum, account: Account, step: Step)
    ensures var next := After(sum, account, step);
            && account.records <= next.records
            && account.spent <= next.spent
            && (next.kit != account.kit ==> account.kit in next.spent)
  {
  }

  /** Continuity. After any changes of password and any recoveries, the password in force opens
      the original Vault Key under the original salt, everything ever sealed decrypts to what was
      sealed, and the newest kit, alone of all kits so far, opens the newest recovery wrap. */
  lemma {:induction false} Continuity(sum: Checksum, account: Account, steps: seq<Step>, vaultKey: KeyBytes,
                                      salt: seq<Byte>)
    requires Intact(account, vaultKey, salt) && FreshRun(sum, account, steps)
    ensures Intact(Run(sum, account, steps), vaultKey, salt)
    ensures account.records <= Run(sum, account, steps).records
    ensures account.spent <= Run(sum, account, steps).spent
    ensures Run(sum, account, steps).kit != account.kit ==> account.kit in Run(sum, account, steps).spent
  {
    if steps != [] {
      var init := steps[..|steps| - 1];
      assert FreshRun(sum, account, init) by {
        forall k | 0 <= k < |init| ensures FreshDraws(Run(sum, account, init[..k]), init[k]) {
          assert init[..k] == steps[..k];
          assert FreshDraws(Run(sum, account, steps[..k]), steps[k]);
        }
      }
      Continuity(sum, account, init, vaultKey, salt);
      assert FreshDraws(Run(sum, account, steps[..|init|]), steps[|init|]);
      StepKeepsIntact(sum, Run(sum, account, init), steps[|init|], vaultKey, salt);
      StepsOnlyAdd(sum, Run(sum, account, init), steps[|init|]);
    }
  }

  /** A kit that any flow has replaced never recovers the account again, however it is typed. */
  lemma SpentKitsStaySpent(sum: Checksum, account: Account, steps: seq<Step>, vaultKey: KeyBytes, salt: seq<Byte>,
                           code: string, newPassword: string, params: KdfParams, draws: Draws)
    requires Intact(account, vaultKey, salt) && FreshRun(sum, account, steps)
    requires Parsed(sum, code) == Ok(account.kit) && Run(sum, account, steps).kit != account.kit
    ensures var later := Run(sum, account, steps).bundle;
            RecoverAndRekey(sum, code, later.recoveryWrapped, newPassword, later.salt, params, draws) == Err(Decrypt)
  {
    Continuity(sum, account, steps, vaultKey, salt);
    KitUnwrapsExactly(Run(sum, account, steps), vaultKey, salt, account.kit);
  }

  // ---- What a ciphertext can be passed off as

  /** A sealed record opens only as itself: any other key, identifier, revision or format version
      makes decryption fail. */
  lemma OpensOnlyAsSealed(vaultKey: KeyBytes, record: EncryptedItem, plain: seq<Byte>, key: KeyBytes, item: EncryptedItem)
    requires record.ciphertext ==
             Sealed(Random(vaultKey), record.nonce, ItemAad(record.version, record.id, record.revision), plain)
    requires item.ciphertext == record.ciphertext && DecryptItem(key, item).Ok?
    ensures key == vaultKey && item == record
  {
    ItemAadIsInjective(record.version, record.id, record.revision, item.version, item.id, item.revision);
  }

  /** A wrapped key never opens as an item, nor an item as a wrapped key, nor one purpose's wrap as
      the other's, even under the same key bytes. */
  lemma FormatsDoNotMix(key: Key, vaultKey: KeyBytes, purpose: WrapPurpose, nonce: Nonce, plain: seq<Byte>,
                        bytes: KeyBytes, item: EncryptedItem, wrapped: WrappedKey, expected: WrapPurpose)
    ensures item.ciphertext == Wrap(key, vaultKey, purpose, nonce).ciphertext ==> DecryptItem(bytes, item).Err?
    ensures wrapped.ciphertext == Sealed(key, nonce, ItemAad(item.version, item.id, item.revision), plain) ==>
            Unwrap(key, wrapped, expected).Err?
    ensures wrapped.ciphertext == Wrap(key, vaultKey, purpose, nonce).ciphertext && expected != purpose ==>
            Unwrap(key, wrapped, expected).Err?
  {
    FormatsAreApart(item.version, item.id, item.revision, WRAP_VERSION, purpose, 0);
    FormatsAreApart(item.version, item.id, item.revision, wrapped.version, expected, 0);
    if wrapped.ciphertext == Wrap(key, vaultKey, purpose, nonce).ciphertext && Unwrap(key, wrapped, expected).Ok? {
      WrapAadIsInjective(WRAP_VERSION, purpose, wrapped.version, expected);
    }
  }

  // ---- What is refused, and why

  /** The parameters that any derivation accepts. */
  predicate Acceptable(params: KdfParams) {
    && params.version == 1 && 19456 <= params.memoryKib <= 1048576
    && 2 <= params.iterations <= 64 && 1 <= params.parallelism <= 64
  }

  /** A key is derived exactly from acceptable parameters and a salt of eight bytes or more; an unknown
      version is named as such. */
  lemma DerivesExactly(password: string, salt: seq<Byte>, params: KdfParams)
    ensures var derived := DeriveMasterKey(password, salt, params);
            && (derived == Ok(Master(password, salt, params)) <==> Acceptable(params) && |salt| >= 8)
            && (derived.Err? <==> !(Acceptable(params) && |salt| >= 8))
            && (derived == Err(UnsupportedVersion(params.version)) <==> params.version != 1)
            && (derived == Err(InvalidKdfParams) <==> params.version == 1 && !(Acceptable(params) && |salt| >= 8))
  {
  }

  /** The only blobs that open are those that wrapping makes, under the same key and for the same
      purpose. */
  lemma UnwrapsExactly(key: Key, wrapped: WrappedKey, expected: WrapPurpose, vaultKey: KeyBytes)
    ensures Unwrap(key, wrapped, expected) == Ok(vaultKey) <==> wrapped == Wrap(key, vaultKey, expected, wrapped.nonce)
    ensures Unwrap(key, wrapped, expected) == Err(UnsupportedVersion(wrapped.version)) <==> wrapped.version != 1
    ensures Unwrap(key, wrapped, expected) == Err(Malformed) <==> wrapped.version == 1 && wrapped.purpose != expected
  {
  }

  /** The only records that decrypt are those sealed under the key for their own identifier, revision
      and version: version 1 as the plaintext itself, version 2 in any padding of it. */
  lemma DecryptsExactly(vaultKey: KeyBytes, item: EncryptedItem, plaintext: seq<Byte>)
    ensures DecryptItem(vaultKey, item) == Ok(plaintext) <==>
            && item.ciphertext.Sealed? && item.ciphertext.key == Random(vaultKey)
            && item.ciphertext.nonce == item.nonce
            && item.ciphertext.aad == ItemAad(item.version, item.id, item.revision)
            && if item.version == 1 then item.ciphertext.plaintext == plaintext
               else item.version == 2 && |plaintext| <= U32_MAX
                    && LittleEndian(|plaintext|, 4) + plaintext <= item.ciphertext.plaintext
    ensures DecryptItem(vaultKey, item) == Err(UnsupportedVersion(item.version)) <==>
            item.version != 1 && item.version != 2
    ensures DecryptItem(vaultKey, item) == Err(Malformed) ==> item.version == 2 && item.ciphertext.Sealed?
    ensures item.version in {1, 2} && item.ciphertext.Forged? ==> DecryptItem(vaultKey, item) == Err(Decrypt)
  {
    if item.version == 2 && item.ciphertext.Sealed? {
      UnpadsExactly(item.ciphertext.plaintext, plaintext);
    }
  }

  /** A record that is sealed as it says, but not padded as version 2 is, is malformed, and no other. */
  lemma MalformedExactly(vaultKey: KeyBytes, item: EncryptedItem)
    ensures DecryptItem(vaultKey, item) == Err(Malformed) <==>
            && item.version == 2 && item.ciphertext.Sealed? && item.ciphertext.key == Random(vaultKey)
            && item.ciphertext.nonce == item.nonce && item.ciphertext.aad == ItemAad(2, item.id, item.revision)
            && UnpadPlaintext(item.ciphertext.plaintext).Err?
  {
  }

  /** A password change needs acceptable parameters and the account's sixteen-byte salt, and keeps
      that salt; nothing else stops it. */
  lemma ChangesExactly(sum: Checksum, secrets: Secrets, newPassword: string, salt: seq<Byte>, params: KdfParams,
                       draws: Draws)
    ensures var changed := ChangePassword(sum, secrets, newPassword, salt, params, draws);
            && (changed.Ok? <==> |salt| == 16 && Acceptable(params))
            && (changed.Ok? ==> changed.value.bundle.salt == salt && changed.value.secrets.vaultKey == secrets.vaultKey)
            && (|salt| != 16 ==> changed == Err(InvalidKdfParams))
            && (|salt| == 16 && params.version != 1 ==> changed == Err(UnsupportedVersion(params.version)))
  {
    DerivesExactly(newPassword, salt, params);
  }

  /** What stops a recovery, first to last: a text that is no code, a wrap that the code's key does not
      open, a salt of another length, unacceptable parameters. */
  lemma RecoveryRefusesExactly(sum: Checksum, code: string, wrapped: WrappedKey, newPassword: string, salt: seq<Byte>,
                               params: KdfParams, draws: Draws)
    ensures var recovered := RecoverAndRekey(sum, code, wrapped, newPassword, salt, params, draws);
            && (Parsed(sum, code).Err? ==> recovered == Err(Malformed))
            && (Parsed(sum, code).Ok? ==>
                var unwrapped := Unwrap(Random(Parsed(sum, code).value), wrapped, RecoveryWrap);
                && (unwrapped.Err? ==> recovered.Err? && recovered.error == unwrapped.error)
                && (unwrapped.Ok? && |salt| != 16 ==> recovered == Err(InvalidKdfParams))
                && (unwrapped.Ok? && |salt| == 16 ==>
                    && (recovered.Ok? <==> Acceptable(params))
                    && (recovered == Err(UnsupportedVersion(params.version)) <==> params.version != 1)
                    && (recovered.Ok? ==>
                        recovered.value.secrets.vaultKey == unwrapped.value && recovered.value.bundle.salt == salt)))
  {
    DerivesExactly(newPassword, salt, params);
  }
}
