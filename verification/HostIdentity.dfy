/**
 The Host's TLS identity, created on the first start and kept (`load_or_create_identity`),
 on top of the protected secrets of `secure_store`.
 */
module HostIdentity {
  import opened Wrappers
  import opened SecretStore

  const MAX_SECRET_BYTES := 256 * 1024
  const NONCE_BYTES := 12
  const TAG_BYTES := 16

  /** `CINDER-AESGCM-V1` and a zero byte */
  const PORTABLE_HEADER: Bytes :=
    [67, 73, 78, 68, 69, 82, 45, 65, 69, 83, 71, 67, 77, 45, 86, 49, 0]

  /** The libraries underneath: a cipher, and a generator of certificates with their keys. */
  datatype Crypto = Crypto(seal: (Bytes, Bytes, Bytes) -> Bytes,
                           open: (Bytes, Bytes, Bytes) -> Option<Bytes>,
                           certOf: int -> Bytes, keyOf: int -> Bytes)

  ghost predicate Lawful(c: Crypto) {
    && (forall k, n, p :: c.open(k, n, c.seal(k, n, p)) == Some(p))
    && (forall k, n, p :: |c.seal(k, n, p)| == |p| + TAG_BYTES)
    && (forall seed :: |c.keyOf(seed)| <= MAX_SECRET_BYTES)
  }

  /** The Host's directory: the master key, the private key under protection, the certificate. */
  datatype Disk = Disk(master: Slot, secret: Slot, cert: Option<Bytes>)

  const EMPTY_DISK := Disk(EMPTY, EMPTY, None)

  /** What one start draws: a master key, a nonce and a certificate seed, should it need them. */
  datatype Draw = Draw(master: Bytes, nonce: Bytes, seed: int)

  ghost predicate ValidDraw(d: Draw) {
    |d.master| == MASTER_KEY_BYTES && |d.nonce| == NONCE_BYTES
  }

  /** What goes wrong in the master key's file, in the secret's, and with the certificate. */
  datatype Fate = Fate(master: Mishap, secret: Mishap, beforeCert: bool, afterCert: bool)

  const UNHARMED := Fate(SMOOTH, SMOOTH, false, false)

  datatype Loaded = Missing | Plain(bytes: Bytes) | Unreadable(why: Outcome)

  datatype Started = Identity(cert: Bytes, key: Bytes) | NotStarted(why: Outcome)

  // ----- secure_store: load and store -----

  function Unprotect(c: Crypto, master: Slot, value: Bytes, random: Bytes, m: Mishap): (Slot, Loaded) {
    if !(PORTABLE_HEADER <= value) then (master, Unreadable(Failed))
    else
      var payload := value[|PORTABLE_HEADER|..];
      if |payload| <= NONCE_BYTES then (master, Unreadable(Failed))
      else
        var (master', k) := LoadOrCreateKey(master, random, m);
        match k
        case Invalid => (master', Unreadable(Failed))
        case NoKey(why) => (master', Unreadable(why))
        case Key(key) =>
          match c.open(key, payload[..NONCE_BYTES], payload[NONCE_BYTES..])
          case None => (master', Unreadable(Failed))
          case Some(plain) => (master', Plain(plain))
  }

  function Load(c: Crypto, disk: Disk, random: Bytes, m: Mishap): (Slot, Loaded) {
    match Read(disk.secret)
    case None => (disk.master, Missing)
    case Some(value) =>
      if |value| > MAX_SECRET_BYTES + 4096 then (disk.master, Unreadable(Failed))
      else Unprotect(c, disk.master, value, random, m)
  }

  function Protected(c: Crypto, key: Bytes, nonce: Bytes, plain: Bytes): Bytes {
    PORTABLE_HEADER + (nonce + c.seal(key, nonce, plain))
  }

  function Store(c: Crypto, disk: Disk, plain: Bytes, draw: Draw, fate: Fate): (Disk, Outcome) {
    if |plain| > MAX_SECRET_BYTES then (disk, Failed)
    else
      var (master, k) := LoadOrCreateKey(disk.master, draw.master, fate.master);
      match k
      case Invalid => (disk.(master := master), Failed)
      case NoKey(why) => (disk.(master := master), why)
      case Key(key) =>
        var (secret, outcome) := Write(disk.secret, Protected(c, key, draw.nonce, plain), fate.secret);
        (Disk(master, secret, disk.cert), outcome)
  }

  // ----- one start -----

  function Create(c: Crypto, disk: Disk, draw: Draw, fate: Fate): (Disk, Started) {
    var cert, key := c.certOf(draw.seed), c.keyOf(draw.seed);
    var (stored, outcome) := Store(c, disk, key, draw, fate);
    if outcome != Done then (stored, NotStarted(outcome))
    else if fate.beforeCert then (stored, NotStarted(Stopped))
    else
      (stored.(cert := Some(cert)), if fate.afterCert then NotStarted(Stopped) else Identity(cert, key))
  }

  function Start(c: Crypto, disk: Disk, draw: Draw, fate: Fate): (Disk, Started) {
    var (master, loaded) := Load(c, disk, draw.master, fate.master);
    var disk1 := disk.(master := master);
    match loaded
    case Unreadable(why) => (disk1, NotStarted(why))
    case Missing => Create(c, disk1, draw, fate)
    case Plain(key) =>
      if disk.cert.Some? then (disk1, Identity(disk.cert.value, key)) else Create(c, disk1, draw, fate)
  }

  // ----- the program's own form -----

  class HostDirectory {
    const masterFile: SecretFile
    const secretFile: SecretFile
    var cert: Option<Bytes>
    const crypto: Crypto

    constructor (crypto: Crypto)
      ensures State() == EMPTY_DISK && masterFile != secretFile
      ensures fresh(masterFile) && fresh(secretFile) && this.crypto == crypto
    {
      masterFile := new SecretFile();
      secretFile := new SecretFile();
      cert := None;
      this.crypto := crypto;
    }

    function State(): Disk
      reads this, masterFile, secretFile
    {
      Disk(masterFile.State(), secretFile.State(), cert)
    }

    method LoadSecret(random: Bytes, m: Mishap) returns (loaded: Loaded)
      requires masterFile != secretFile
      modifies masterFile
      ensures secretFile.State() == old(secretFile.State())
      ensures (masterFile.State(), loaded) == Load(crypto, old(State()), random, m)
    {
      var stored := secretFile.ReadWithBackup();
      if stored.None? {
        return Missing;
      }
      var value := stored.value;
      if |value| > MAX_SECRET_BYTES + 4096 || !(PORTABLE_HEADER <= value) {
        return Unreadable(Failed);
      }
      var payload := value[|PORTABLE_HEADER|..];
      if |payload| <= NONCE_BYTES {
        return Unreadable(Failed);
      }
      var k := masterFile.LoadOrCreate(random, m);
      match k {
        case Invalid => return Unreadable(Failed);
        case NoKey(why) => return Unreadable(why);
        case Key(key) =>
          var plain := crypto.open(key, payload[..NONCE_BYTES], payload[NONCE_BYTES..]);
          return if plain.None? then Unreadable(Failed) else Plain(plain.value);
      }
    }

    method StoreSecret(plain: Bytes, draw: Draw, fate: Fate) returns (outcome: Outcome)
      requires masterFile != secretFile
      modifies masterFile, secretFile
      ensures (State(), outcome) == Store(crypto, old(State()), plain, draw, fate)
    {
      if |plain| > MAX_SECRET_BYTES {
        return Failed;
      }
      var k := masterFile.LoadOrCreate(draw.master, fate.master);
      match k {
        case Invalid => return Failed;
        case NoKey(why) => return why;
        case Key(key) =>
          outcome := secretFile.WritePrivateAtomic(Protected(crypto, key, draw.nonce, plain), fate.secret);
      }
    }

    method LoadOrCreateIdentity(draw: Draw, fate: Fate) returns (result: Started)
      requires masterFile != secretFile
      modifies this, masterFile, secretFile
      ensures (State(), result) == Start(crypto, old(State()), draw, fate)
    {
      var storedKey := LoadSecret(draw.master, fate.master);
      if storedKey.Unreadable? {
        return NotStarted(storedKey.why);
      }
      if cert.Some? && storedKey.Plain? {
        return Identity(cert.value, storedKey.bytes);
      }
      var newCert, newKey := crypto.certOf(draw.seed), crypto.keyOf(draw.seed);
      var outcome := StoreSecret(newKey, draw, fate);
      if outcome != Done {
        return NotStarted(outcome);
      }
      if fate.beforeCert {
        return NotStarted(Stopped);
      }
      cert := Some(newCert);
      return if fate.afterCert then NotStarted(Stopped) else Identity(newCert, newKey);
    }
  }

  // ----- what every start keeps -----

  ghost predicate SealedUnder(c: Crypto, master: Bytes, value: Bytes) {
    exists nonce, plain :: IsProtected(c, master, nonce, plain, value)
  }

  ghost predicate IsProtected(c: Crypto, master: Bytes, nonce: Bytes, plain: Bytes, value: Bytes) {
    |nonce| == NONCE_BYTES && |plain| <= MAX_SECRET_BYTES && value == Protected(c, master, nonce, plain)
  }

  /** Whatever stands at one of the secret's readable paths can be read with the master key. */
  ghost predicate ReadableWith(c: Crypto, master: Option<Bytes>, value: Option<Bytes>) {
    value.Some? ==> master.Some? && SealedUnder(c, master.value, value.value)
  }

  ghost predicate Matching(c: Crypto, cert: Bytes, key: Bytes) {
    exists seed :: cert == c.certOf(seed) && key == c.keyOf(seed)
  }

  /** The certificate's own key stands at the secret's path and opens with the master key. */
  ghost predicate KeyOnDisk(c: Crypto, disk: Disk) {
    disk.cert.Some? ==>
      && disk.master.primary.Some? && disk.secret.primary.Some?
      && exists nonce, seed ::
           && disk.cert == Some(c.certOf(seed))
           && IsProtected(c, disk.master.primary.value, nonce, c.keyOf(seed), disk.secret.primary.value)
  }

  ghost predicate Sound(c: Crypto, disk: Disk) {
    && disk.master.backup.None? && (disk.master.primary.Some? ==> IsKey(disk.master.primary))
    && ReadableWith(c, disk.master.primary, disk.secret.primary)
    && ReadableWith(c, disk.master.primary, disk.secret.backup)
    && KeyOnDisk(c, disk)
  }

  /** A replacement leaves at each readable path something that was readable, or the new contents. */
  lemma WriteLeaves(s: Slot, contents: Bytes, m: Mishap)
    ensures var (s', outcome) := Write(s, contents, m);
      && s'.primary in {None, s.primary, s.backup, Some(contents)}
      && s'.backup in {None, s.primary, s.backup, Some(contents)}
      && (outcome == Done ==> s'.primary == Some(contents))
      && (m == SMOOTH ==> outcome == Done)
  {
  }

  lemma OpensProtected(c: Crypto, master: Slot, key: Bytes, nonce: Bytes, plain: Bytes, value: Bytes,
                       random: Bytes, m: Mishap)
    requires Lawful(c) && master.primary == Some(key) && |key| == MASTER_KEY_BYTES
    requires IsProtected(c, key, nonce, plain, value)
    ensures Unprotect(c, master, value, random, m) == (master, Plain(plain))
    ensures |value| <= MAX_SECRET_BYTES + 4096
  {
    var payload := value[|PORTABLE_HEADER|..];
    assert payload == nonce + c.seal(key, nonce, plain);
    assert payload[..NONCE_BYTES] == nonce && payload[NONCE_BYTES..] == c.seal(key, nonce, plain);
  }

  /** In a sound directory loading never writes, and finds the certificate's own key. */
  lemma LoadIsQuiet(c: Crypto, disk: Disk, random: Bytes, m: Mishap)
    requires Lawful(c) && Sound(c, disk)
    ensures var (master, loaded) := Load(c, disk, random, m);
      && master == disk.master && !loaded.Unreadable?
      && (disk.cert.Some? ==> loaded.Plain? && Matching(c, disk.cert.value, loaded.bytes))
  {
    if disk.cert.Some? {
      var key, value := disk.master.primary.value, disk.secret.primary.value;
      var nonce, seed :|
        && disk.cert == Some(c.certOf(seed))
        && IsProtected(c, key, nonce, c.keyOf(seed), value);
      OpensProtected(c, disk.master, key, nonce, c.keyOf(seed), value, random, m);
    } else if Read(disk.secret).Some? {
      var key, value := disk.master.primary.value, Read(disk.secret).value;
      var nonce, plain :| IsProtected(c, key, nonce, plain, value);
      OpensProtected(c, disk.master, key, nonce, plain, value, random, m);
    }
  }

  /** Making the master key, or finding it, in a directory that has no certificate yet. */
  lemma MasterKeyReady(master: Slot, random: Bytes, m: Mishap)
    requires master.backup.None? && (master.primary.Some? ==> IsKey(master.primary))
    requires |random| == MASTER_KEY_BYTES
    ensures var (master', k) := LoadOrCreateKey(master, random, m);
      && master'.backup.None? && !k.Invalid?
      && (master'.primary.Some? ==> IsKey(master'.primary))
      && (master.primary.Some? ==> master' == master && k == Key(master.primary.value))
      && (k.Key? ==> master'.primary == Some(k.key))
      && (m == SMOOTH ==> k.Key?)
  {
  }

  lemma StoreKeepsSound(c: Crypto, disk: Disk, seed: int, draw: Draw, fate: Fate)
    requires Lawful(c) && Sound(c, disk) && disk.cert.None? && ValidDraw(draw)
    ensures var (disk', outcome) := Store(c, disk, c.keyOf(seed), draw, fate);
      && Sound(c, disk') && disk'.cert.None?
      && (outcome == Done ==> Sound(c, disk'.(cert := Some(c.certOf(seed)))))
      && (fate.master == fate.secret == SMOOTH ==> outcome == Done)
  {
    var (master, k) := LoadOrCreateKey(disk.master, draw.master, fate.master);
    MasterKeyReady(disk.master, draw.master, fate.master);
    if k.Key? {
      var contents := Protected(c, k.key, draw.nonce, c.keyOf(seed));
      assert IsProtected(c, k.key, draw.nonce, c.keyOf(seed), contents);
      WriteLeaves(disk.secret, contents, fate.secret);
    }
  }

  lemma StartKeepsSound(c: Crypto, disk: Disk, draw: Draw, fate: Fate)
    requires Lawful(c) && Sound(c, disk) && ValidDraw(draw)
    ensures var (disk', result) := Start(c, disk, draw, fate);
      && Sound(c, disk')
      && (disk.cert.Some? ==> disk' == disk && result.Identity? && result.cert == disk.cert.value)
      && (result.Identity? ==> disk'.cert == Some(result.cert) && Matching(c, result.cert, result.key))
      && (fate == UNHARMED ==> result.Identity?)
  {
    LoadIsQuiet(c, disk, draw.master, fate.master);
    assert disk.(master := disk.master) == disk;
    if disk.cert.None? {
      StoreKeepsSound(c, disk, draw.seed, draw, fate);
    }
  }

  /** The secret on disk is too long, is not one of ours, or does not open with the master key. */
  ghost predicate Damaged(c: Crypto, disk: Disk) {
    && Read(disk.secret).Some? && IsKey(disk.master.primary)
    && var value := Read(disk.secret).value;
    || |value| > MAX_SECRET_BYTES + 4096
    || !(PORTABLE_HEADER <= value)
    || |value| <= |PORTABLE_HEADER| + NONCE_BYTES
    || (var payload := value[|PORTABLE_HEADER|..];
        c.open(disk.master.primary.value, payload[..NONCE_BYTES], payload[NONCE_BYTES..]).None?)
  }

  /** A damaged secret stops the start: it is neither replaced nor passed over. */
  lemma DamagedSecretStopsStart(c: Crypto, disk: Disk, draw: Draw, fate: Fate)
    requires Damaged(c, disk)
    ensures Start(c, disk, draw, fate).0 == disk && Start(c, disk, draw, fate).1.NotStarted?
  {
  }

  // ----- any number of starts -----

  datatype Attempt = Attempt(draw: Draw, fate: Fate)

  function DiskAfter(c: Crypto, disk: Disk, attempts: seq<Attempt>): Disk
    decreases |attempts|
  {
    if attempts == [] then disk
    else DiskAfter(c, Start(c, disk, attempts[0].draw, attempts[0].fate).0, attempts[1..])
  }

  function Results(c: Crypto, disk: Disk, attempts: seq<Attempt>): (results: seq<Started>)
    ensures |results| == |attempts|
    decreases |attempts|
  {
    if attempts == [] then []
    else
      var (disk', result) := Start(c, disk, attempts[0].draw, attempts[0].fate);
      [result] + Results(c, disk', attempts[1..])
  }

  ghost predicate AllAre(results: seq<Started>, cert: Bytes) {
    forall i :: 0 <= i < |results| && results[i].Identity? ==> results[i].cert == cert
  }

  lemma {:induction false} StartsKeepSound(c: Crypto, disk: Disk, attempts: seq<Attempt>)
    requires Lawful(c) && Sound(c, disk)
    requires forall i :: 0 <= i < |attempts| ==> ValidDraw(attempts[i].draw)
    ensures Sound(c, DiskAfter(c, disk, attempts))
    ensures exists cert :: AllAre(Results(c, disk, attempts), cert)
    ensures disk.cert.Some? ==> AllAre(Results(c, disk, attempts), disk.cert.value)
    decreases |attempts|
  {
    if attempts == [] {
      assert AllAre(Results(c, disk, attempts), []);
    } else {
      var (disk', result) := Start(c, disk, attempts[0].draw, attempts[0].fate);
      StartKeepsSound(c, disk, attempts[0].draw, attempts[0].fate);
      StartsKeepSound(c, disk', attempts[1..]);
      var later := Results(c, disk', attempts[1..]);
      var cert :| AllAre(later, cert);
      assert Results(c, disk, attempts) == [result] + later;
      if disk'.cert.Some? {
        assert AllAre([result] + later, disk'.cert.value);
      } else {
        assert AllAre([result] + later, cert);
      }
    }
  }

  /**
   Across any number of starts from an empty directory, each stopped at any file operation
   or refused one, all that return an identity return the same certificate, and so the
   same fingerprint, whatever the digest.
   */
  lemma {:induction false} OneFingerprint(c: Crypto, attempts: seq<Attempt>, digest: Bytes -> string, i: nat, j: nat)
    requires Lawful(c)
    requires forall k :: 0 <= k < |attempts| ==> ValidDraw(attempts[k].draw)
    requires i < |attempts| && j < |attempts|
    ensures var results := Results(c, EMPTY_DISK, attempts);
      results[i].Identity? && results[j].Identity? ==> digest(results[i].cert) == digest(results[j].cert)
  {
    StartsKeepSound(c, EMPTY_DISK, attempts);
    var cert :| AllAre(Results(c, EMPTY_DISK, attempts), cert);
  }

  /**
   However the starts ended, a certificate on disk has its own private key on disk,
   readable; and the next start that nothing disturbs returns an identity.
   */
  lemma CertificateHasItsKey(c: Crypto, attempts: seq<Attempt>, next: Draw)
    requires Lawful(c) && ValidDraw(next)
    requires forall k :: 0 <= k < |attempts| ==> ValidDraw(attempts[k].draw)
    ensures var disk := DiskAfter(c, EMPTY_DISK, attempts);
      && (disk.cert.Some? ==>
            var loaded := Load(c, disk, next.master, SMOOTH).1;
            loaded.Plain? && Matching(c, disk.cert.value, loaded.bytes))
      && Start(c, disk, next, UNHARMED).1.Identity?
  {
    StartsKeepSound(c, EMPTY_DISK, attempts);
    var disk := DiskAfter(c, EMPTY_DISK, attempts);
    LoadIsQuiet(c, disk, next.master, SMOOTH);
    StartKeepsSound(c, disk, next, UNHARMED);
  }
}
