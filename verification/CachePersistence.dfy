/** src/calendar/calendar_service.cpp: the encrypted event cache, against any outcome of its I/O. */
module CachePersistence {
  import opened Wrappers
  import opened CacheText

  // The longest text a load reads, encrypted or not; a save writes longer ones as well.
  const MAX_CACHE_BYTES: nat := 32 * 1024 * 1024

  datatype PersistenceState =
    | Opening
    | Ready
    | Unavailable
    | Cancelled
    | DeniedOrLocked
    | MissingKey
    | RecoveryRequired
    | BackendError

  datatype KeyState = KeyOpening | KeyReady | KeyUnavailable | KeyCancelled | KeyDeniedOrLocked | KeyMissing
    | KeyBackendError

  /** A cache text, a char a byte, and the event objects parseCache finds in it, unless it rejects the text. */
  datatype Payload = Payload(text: string, items: Option<seq<Item>>)

  /** events.enc: absent, sealed under a key, or anything no key opens. */
  datatype EncryptedFile = NoFile | Sealed(key: nat, payload: Payload) | Damaged(bytes: string)

  /** events.json, the plaintext cache older versions wrote. */
  datatype PlainFile = NoPlain | Plain(payload: Payload)

  /** How the I/O of one load goes: each flag is one call's success. */
  datatype LoadIo = LoadIo(
    secured: bool,
    readable: bool,
    legacyStat: bool,
    legacyRemoved: bool,
    legacySecured: bool,
    legacyReadable: bool,
    written: bool)

  /** The service's fields and the two files; `memory` is the text the last synchronization has loaded. */
  datatype State = State(
    key: Option<nat>,
    writable: bool,
    persistence: PersistenceState,
    migrationPending: bool,
    encrypted: EncryptedFile,
    plaintext: PlainFile,
    memory: Option<Payload>)

  function At(s: State, persistence: PersistenceState, pending: bool): State {
    s.(persistence := persistence, migrationPending := pending)
  }

  datatype ReadStatus = Success | NotFound | IoError | Rejected

  predicate Oversized(payload: Payload) { |payload.text| > MAX_CACHE_BYTES }

  /** readEncrypted: success only for a file of bounded size sealed under the very key. */
  function ReadEncrypted(file: EncryptedFile, key: nat, readable: bool): ReadStatus {
    match file
    case NoFile => if readable then NotFound else IoError
    case Sealed(k, payload) =>
      if !readable then IoError else if !Oversized(payload) && k == key then Success else Rejected
    case Damaged(_) => if readable then Rejected else IoError
  }

  /** A plaintext cache that is read and parsed. */
  predicate Acceptable(payload: Payload) { !Oversized(payload) && payload.items.Some? }

  /** loadCache once the encrypted file has been authenticated and parsed. */
  function Reloaded(s: State, io: LoadIo): (State, bool) {
    if !io.legacyStat then (s, false)
    else if s.plaintext.Plain? && !io.legacyRemoved then (At(s, Opening, true), false)
    else (At(s.(plaintext := NoPlain, writable := true), Ready, false), true)
  }

  /** loadCache when there is no encrypted file: migrate the plaintext cache, or start empty. */
  function Migrated(s: State, io: LoadIo): (State, bool)
    requires s.key.Some?
  {
    if !io.legacySecured then (s, false)
    else if s.plaintext.NoPlain? && io.legacyReadable then (At(s.(writable := true), Ready, false), true)
    else
      var opening := At(s, Opening, true);
      if !io.legacyReadable || !s.plaintext.Plain? || !Acceptable(s.plaintext.payload) then (opening, false)
      else
        var parsed := opening.(memory := Some(s.plaintext.payload));
        if !io.written then (parsed, false)
        else
          var sealed := parsed.(encrypted := Sealed(s.key.value, s.plaintext.payload));
          if !io.legacyRemoved then (sealed, false)
          else (At(sealed.(plaintext := NoPlain, writable := true), Ready, false), true)
  }

  function Loaded(s: State, io: LoadIo): (State, bool) {
    if s.key.None? || !io.secured then (s, false)
    else
      match ReadEncrypted(s.encrypted, s.key.value, io.readable)
      case Success =>
        if s.encrypted.payload.items.Some? then Reloaded(s.(memory := Some(s.encrypted.payload)), io)
        else (At(s, RecoveryRequired, s.migrationPending), false)
      case NotFound => Migrated(s, io)
      case IoError => (s, false)
      case Rejected => (At(s, RecoveryRequired, s.migrationPending), false)
  }

  function WithoutKey(state: KeyState): PersistenceState {
    match state
    case KeyOpening => Opening
    case KeyUnavailable => Unavailable
    case KeyCancelled => Cancelled
    case KeyDeniedOrLocked => DeniedOrLocked
    case KeyMissing => MissingKey
    case KeyReady => BackendError
    case KeyBackendError => BackendError
  }

  /** syncCachePersistence: `derived` is the key the provider derives when it is ready. */
  function Sync(s: State, provider: KeyState, derived: Option<nat>, io: LoadIo): State {
    var opening := At(s.(key := None, writable := false, memory := None), Opening, s.migrationPending);
    if provider != KeyReady then At(opening, WithoutKey(provider), s.migrationPending)
    else if derived.None? then At(opening, BackendError, s.migrationPending)
    else
      var (loaded, ok) := Loaded(opening.(key := derived), io);
      if !ok && loaded.persistence == Opening then At(loaded, BackendError, loaded.migrationPending) else loaded
  }

  /** saveCache: `dump` is the text it writes. */
  function Save(s: State, dump: Payload, written: bool): State {
    if !s.writable || s.key.None? || s.persistence != Ready then s
    else if written then s.(encrypted := Sealed(s.key.value, dump))
    else At(s.(writable := false), BackendError, s.migrationPending)
  }

  function Clear(s: State, removed: bool): State {
    var dropped := s.(key := None, writable := false);
    if removed then At(dropped.(encrypted := NoFile), Opening, s.migrationPending)
    else At(dropped, BackendError, s.migrationPending)
  }

  datatype Action =
    | SyncPersistence(provider: KeyState, derived: Option<nat>, io: LoadIo)
    | SaveEvents(text: string, items: seq<Item>, written: bool)
    | ClearForRecovery(removed: bool)

  function Step(s: State, action: Action): State {
    match action
    case SyncPersistence(provider, derived, io) => Sync(s, provider, derived, io)
    case SaveEvents(text, items, written) => Save(s, Payload(text, Some(items)), written)
    case ClearForRecovery(removed) => Clear(s, removed)
  }

  // ---- safety ----

  /** A load with this key succeeds in reading and parsing the file. */
  predicate Readable(file: EncryptedFile, key: Option<nat>) {
    file.Sealed? && key == Some(file.key) && Acceptable(file.payload)
  }

  /** Sealed with this key around a text that parses, of any length. */
  predicate Own(file: EncryptedFile, key: Option<nat>) {
    file.Sealed? && key == Some(file.key) && file.payload.items.Some?
  }

  /** Writable is Ready is: the file was absent or opened, or has been written since, and no plaintext is left. */
  predicate Inv(s: State) {
    && (s.writable <==> s.persistence == Ready)
    && (s.writable ==> s.key.Some? && (s.encrypted == NoFile || Own(s.encrypted, s.key)))
    && (s.persistence == Ready ==> !s.migrationPending && s.plaintext == NoPlain)
  }

  /** Whatever is on disk at first, and whatever any I/O does, every reachable state is safe. */
  lemma StepKeepsInv(s: State, action: Action)
    requires Inv(s)
    ensures Inv(Step(s, action))
  {
  }

  /** The encrypted file is replaced only by a save under its own key or by explicit recovery; loading
      writes it only where there was none. */
  lemma EncryptedFileIsReplacedSafely(s: State, action: Action)
    requires Inv(s) && s.encrypted != NoFile && Step(s, action).encrypted != s.encrypted
    ensures action.ClearForRecovery? || (action.SaveEvents? && action.written && Own(s.encrypted, s.key))
  {
  }

  /** The plaintext goes only once the same key opens an encrypted copy: of its own contents when the
      step migrated it, or an authenticated one that was there before. */
  lemma PlaintextGoesOnlyIfSealed(s: State, action: Action)
    requires Inv(s) && s.plaintext.Plain? && Step(s, action).plaintext == NoPlain
    ensures var t := Step(s, action);
      && Readable(t.encrypted, t.key) && t.persistence == Ready && !t.migrationPending
      && (if s.encrypted == NoFile then t.encrypted.payload == s.plaintext.payload else t.encrypted == s.encrypted)
      && t.memory == Some(t.encrypted.payload)
  {
  }

  /** The state after the first `n` actions. */
  function Run(s: State, actions: seq<Action>, n: nat): State
    requires n <= |actions|
  {
    if n == 0 then s else Step(Run(s, actions, n - 1), actions[n - 1])
  }

  /** Reached from a service that has just been initialized over any two files. */
  predicate Initial(s: State) {
    s.key.None? && !s.writable && s.persistence == Opening && !s.migrationPending && s.memory.None?
  }

  lemma {:induction false} RunKeepsInv(s: State, actions: seq<Action>, n: nat)
    requires Initial(s) && n <= |actions|
    ensures Inv(Run(s, actions, n))
  {
    if n > 0 {
      RunKeepsInv(s, actions, n - 1);
      StepKeepsInv(Run(s, actions, n - 1), actions[n - 1]);
    }
  }

  predicate Opens(file: EncryptedFile, action: Action) {
    action.SyncPersistence? && action.derived.Some? && Readable(file, action.derived)
  }

  // ---- texts that are too long ----

  /** `file` is what this save wrote, longer than a load reads. */
  predicate LongSave(action: Action, file: EncryptedFile, key: Option<nat>) {
    && action.SaveEvents? && action.written && |action.text| > MAX_CACHE_BYTES
    && key.Some? && file == Sealed(key.value, Payload(action.text, Some(action.items)))
  }

  /** What a load has found or left: readable, or nothing. */
  lemma LoadedIsReadable(s: State, action: Action)
    requires action.SyncPersistence?
    ensures var t := Step(s, action); t.writable ==> t.encrypted == NoFile || Readable(t.encrypted, t.key)
  {
  }

  /** Only a save that writes keeps a cache writable, apart from a load. */
  lemma WritableStep(s: State, action: Action)
    requires Inv(s) && !action.SyncPersistence? && Step(s, action).writable
    ensures action.SaveEvents? && action.written && s.key.Some? && Step(s, action).key == s.key
    ensures Step(s, action).encrypted == Sealed(s.key.value, Payload(action.text, Some(action.items)))
  {
  }

  /** The file of a writable cache is readable unless the last step has saved an oversized text. */
  lemma UnreadableIsLongSave(initial: State, actions: seq<Action>, n: nat)
    requires Initial(initial) && n <= |actions|
    requires var s := Run(initial, actions, n); s.writable && s.encrypted != NoFile && !Readable(s.encrypted, s.key)
    ensures 0 < n && LongSave(actions[n - 1], Run(initial, actions, n).encrypted, Run(initial, actions, n).key)
  {
    RunKeepsInv(initial, actions, n - 1);
    if actions[n - 1].SyncPersistence? {
      LoadedIsReadable(Run(initial, actions, n - 1), actions[n - 1]);
    } else {
      WritableStep(Run(initial, actions, n - 1), actions[n - 1]);
    }
  }

  /** Every step of every run, whatever the I/O does: a file is replaced only if the same key opens it or
      has just sealed an oversized text in it, the plaintext goes only into an encrypted copy, and Ready means
      that it is gone. */
  lemma EveryStepIsSafe(initial: State, actions: seq<Action>, n: nat)
    requires Initial(initial) && n < |actions|
    ensures var s, action, t := Run(initial, actions, n), actions[n], Run(initial, actions, n + 1);
      && (s.encrypted != NoFile && t.encrypted != s.encrypted && !action.ClearForRecovery? ==>
            && action.SaveEvents? && action.written
            && (Readable(s.encrypted, s.key) || (0 < n && LongSave(actions[n - 1], s.encrypted, s.key))))
      && (s.plaintext.Plain? && t.plaintext == NoPlain ==>
            && Readable(t.encrypted, t.key)
            && if s.encrypted == NoFile then t.encrypted.payload == s.plaintext.payload else t.encrypted == s.encrypted)
      && (t.persistence == Ready ==> !t.migrationPending && t.plaintext == NoPlain)
  {
    RunKeepsInv(initial, actions, n);
    RunKeepsInv(initial, actions, n + 1);
    var s, action := Run(initial, actions, n), actions[n];
    if s.encrypted != NoFile && Step(s, action).encrypted != s.encrypted {
      EncryptedFileIsReplacedSafely(s, action);
      if !action.ClearForRecovery? && !Readable(s.encrypted, s.key) {
        UnreadableIsLongSave(initial, actions, n);
      }
    }
    if s.plaintext.Plain? && Step(s, action).plaintext == NoPlain {
      PlaintextGoesOnlyIfSealed(s, action);
    }
  }

  lemma KeyComesFromSync(s: State, action: Action, file: EncryptedFile)
    requires !Readable(file, s.key) && !Opens(file, action)
    ensures !Readable(file, Step(s, action).key)
  {
  }

  /** A file no load can read keeps the cache from becoming writable. */
  lemma UnreadableStays(s: State, action: Action)
    requires Inv(s) && !s.writable && s.encrypted != NoFile && s.memory.None?
    requires !action.ClearForRecovery? && !Opens(s.encrypted, action)
    ensures var t := Step(s, action); !t.writable && t.encrypted == s.encrypted && t.memory.None?
  {
  }

  /** An encrypted file that none of the keys derived along a run can read, or that is too long for any of
      them, survives the run to the byte, and nothing is loaded, unless the user asks for recovery. */
  lemma {:induction false} UnreadableFileSurvives(s: State, actions: seq<Action>, n: nat)
    requires Initial(s) && s.encrypted != NoFile && n <= |actions|
    requires forall i :: 0 <= i < n ==> !actions[i].ClearForRecovery? && !Opens(s.encrypted, actions[i])
    ensures var t := Run(s, actions, n);
      t.encrypted == s.encrypted && !t.writable && t.memory.None? && !Readable(t.encrypted, t.key)
  {
    if n > 0 {
      UnreadableFileSurvives(s, actions, n - 1);
      RunKeepsInv(s, actions, n - 1);
      UnreadableStays(Run(s, actions, n - 1), actions[n - 1]);
      KeyComesFromSync(Run(s, actions, n - 1), actions[n - 1], s.encrypted);
    }
  }

  const SMOOTH := LoadIo(true, true, true, true, true, true, true)

  /** With working I/O and a derivable key, loading ends Ready if and only if the encrypted file opens
      and parses, or is absent with a plaintext file that is absent or parses, neither being too long. */
  lemma SmoothLoadIsReady(s: State, key: nat)
    requires Inv(s)
    ensures Sync(s, KeyReady, Some(key), SMOOTH).persistence == Ready
       <==> Readable(s.encrypted, Some(key))
            || (s.encrypted == NoFile && (s.plaintext.Plain? ==> Acceptable(s.plaintext.payload)))
  {
  }

  /** What a save wrote, the next load under the same key brings back, however the plaintext fares, if and only
      if the text is not too long; a longer one demands recovery. */
  lemma SavedEventsReloadIff(s: State, dump: Payload, io: LoadIo)
    requires Inv(s) && s.writable && dump.items.Some? && io.secured && io.readable
    ensures var t := Sync(Save(s, dump, true), KeyReady, s.key, io);
      && (t.memory == Some(dump) <==> !Oversized(dump))
      && (Oversized(dump) ==> t.persistence == RecoveryRequired && t.memory.None? && !t.writable)
  {
  }

  /** A failed save stops all further ones until the cache has been loaded again. */
  lemma FailedSaveStopsSaving(s: State, dump: Payload, later: Payload, written: bool)
    requires Inv(s) && s.writable
    ensures var t := Save(s, dump, false); Save(t, later, written) == t && t.encrypted == s.encrypted
  {
  }

  // ---- the outcome of every synchronization ----

  /** The encrypted file is read, opened with the key, and parsed. */
  predicate OpensWith(s: State, key: nat, io: LoadIo) {
    && io.secured && io.readable && s.encrypted.Sealed? && s.encrypted.key == key
    && |s.encrypted.payload.text| <= 33_554_432 && s.encrypted.payload.items.Some?
  }

  /** There is no encrypted file, and the plaintext one may be looked at. */
  predicate LooksForPlain(s: State, io: LoadIo) {
    io.secured && io.readable && s.encrypted == NoFile && io.legacySecured
  }

  /** There is no plaintext file either. */
  predicate StartsEmpty(s: State, io: LoadIo) {
    LooksForPlain(s, io) && io.legacyReadable && s.plaintext == NoPlain
  }

  /** The plaintext file is read and parsed. */
  predicate TakesPlain(s: State, io: LoadIo) {
    && LooksForPlain(s, io) && io.legacyReadable && s.plaintext.Plain?
    && |s.plaintext.payload.text| <= 33_554_432 && s.plaintext.payload.items.Some?
  }

  /** Beside an opened file no plaintext is left. */
  predicate ClearsPlain(s: State, io: LoadIo) { io.legacyStat && (s.plaintext == NoPlain || io.legacyRemoved) }

  predicate EndsReady(s: State, key: nat, io: LoadIo) {
    || (OpensWith(s, key, io) && ClearsPlain(s, io))
    || StartsEmpty(s, io)
    || (TakesPlain(s, io) && io.written && io.legacyRemoved)
  }

  /** A load demands recovery if and only if an encrypted file has been read and then rejected or not parsed;
      it ends Ready as said above, and in every other case, such as a read that fails, with a backend error
      that leaves both files to the next try. */
  lemma LoadOutcome(s: State, key: nat, io: LoadIo)
    ensures var t := Sync(s, KeyReady, Some(key), io);
      && (t.persistence == RecoveryRequired <==>
            io.secured && io.readable && s.encrypted != NoFile && !OpensWith(s, key, io))
      && (t.persistence == Ready <==> EndsReady(s, key, io))
      && (t.persistence == RecoveryRequired || t.persistence == Ready || t.persistence == BackendError)
      && (t.writable <==> t.persistence == Ready) && t.key == Some(key)
      && t.memory == (if OpensWith(s, key, io) then Some(s.encrypted.payload)
                      else if TakesPlain(s, io) then Some(s.plaintext.payload) else None)
  {
  }

  lemma LoadLeavesFiles(s: State, key: nat, io: LoadIo)
    ensures var t := Sync(s, KeyReady, Some(key), io);
      && t.encrypted == (if TakesPlain(s, io) && io.written then Sealed(key, s.plaintext.payload) else s.encrypted)
      && t.plaintext == (if EndsReady(s, key, io) then NoPlain else s.plaintext)
      && (t.migrationPending <==>
            !EndsReady(s, key, io) &&
            (s.migrationPending || LooksForPlain(s, io) || (OpensWith(s, key, io) && io.legacyStat)))
  {
  }

  /** Without a key the state says why, and nothing is loaded or changed on disk. */
  lemma NoKeyOutcome(s: State, provider: KeyState, derived: Option<nat>, io: LoadIo)
    requires provider == KeyReady ==> derived.None?
    ensures var t := Sync(s, provider, derived, io);
      && t.key.None? && !t.writable && t.memory.None? && t.encrypted == s.encrypted && t.plaintext == s.plaintext
      && t.migrationPending == s.migrationPending
      && (t.persistence == Opening <==> provider == KeyOpening)
      && (t.persistence == Unavailable <==> provider == KeyUnavailable)
      && (t.persistence == Cancelled <==> provider == KeyCancelled)
      && (t.persistence == DeniedOrLocked <==> provider == KeyDeniedOrLocked)
      && (t.persistence == MissingKey <==> provider == KeyMissing)
      && (t.persistence == BackendError <==> provider == KeyBackendError || provider == KeyReady)
  {
  }

  /** A save writes if and only if the cache is writable; a failed one ends that with a backend error. */
  lemma SaveOutcome(s: State, dump: Payload, written: bool)
    requires Inv(s)
    ensures var t := Save(s, dump, written);
      && (!s.writable ==> t == s)
      && (s.writable && written ==> t == s.(encrypted := Sealed(s.key.value, dump)))
      && (s.writable && !written ==> t == s.(writable := false, persistence := BackendError))
  {
  }

  /** Recovery drops the key, and with it either the file or, if it stays, the chance to write. */
  lemma RecoveryOutcome(s: State, removed: bool)
    ensures var t := Clear(s, removed);
      && t.key.None? && !t.writable && t.plaintext == s.plaintext && t.migrationPending == s.migrationPending
      && (if removed then t.encrypted == NoFile && t.persistence == Opening
          else t.encrypted == s.encrypted && t.persistence == BackendError)
  {
  }

  // ---- the service's members ----

  class CacheStore {
    var key: Option<nat>
    var writable: bool
    var persistence: PersistenceState
    var migrationPending: bool
    var encrypted: EncryptedFile
    var plaintext: PlainFile
    var memory: Option<Payload>

    function View(): State
      reads this
    {
      State(key, writable, persistence, migrationPending, encrypted, plaintext, memory)
    }

    constructor (encrypted: EncryptedFile, plaintext: PlainFile)
      ensures Initial(View()) && this.encrypted == encrypted && this.plaintext == plaintext
    {
      key, writable, persistence, migrationPending := None, false, Opening, false;
      this.encrypted, this.plaintext, memory := encrypted, plaintext, None;
    }

    method SetPersistence(state: PersistenceState, pending: bool)
      modifies this`persistence, this`migrationPending
      ensures View() == At(old(View()), state, pending)
    {
      persistence, migrationPending := state, pending;
    }

    method ParseCache(payload: Payload) returns (ok: bool)
      modifies this`memory
      ensures ok == payload.items.Some?
      ensures View() == if ok then old(View()).(memory := Some(payload)) else old(View())
    {
      if payload.items.Some? {
        memory := Some(payload);
      }
      return payload.items.Some?;
    }

    method FinishReload(io: LoadIo) returns (ok: bool)
      modifies this
      ensures (View(), ok) == Reloaded(old(View()), io)
    {
      if !io.legacyStat {
        return false;
      }
      if plaintext.Plain? {
        if !io.legacyRemoved {
          SetPersistence(Opening, true);
          return false;
        }
        plaintext := NoPlain;
      }
      writable := true;
      SetPersistence(Ready, false);
      return true;
    }

    method Migrate(io: LoadIo) returns (ok: bool)
      requires key.Some?
      modifies this
      ensures (View(), ok) == Migrated(old(View()), io)
    {
      if !io.legacySecured {
        return false;
      }
      if plaintext.NoPlain? && io.legacyReadable {
        writable := true;
        SetPersistence(Ready, false);
        return true;
      }
      SetPersistence(Opening, true);
      if !io.legacyReadable || !plaintext.Plain? || Oversized(plaintext.payload) {
        return false;
      }
      var parsed := ParseCache(plaintext.payload);
      if !parsed || !io.written {
        return false;
      }
      encrypted := Sealed(key.value, plaintext.payload);
      if !io.legacyRemoved {
        return false;
      }
      plaintext, writable := NoPlain, true;
      SetPersistence(Ready, false);
      return true;
    }

    method LoadCache(io: LoadIo) returns (ok: bool)
      modifies this
      ensures (View(), ok) == Loaded(old(View()), io)
    {
      if key.None? || !io.secured {
        return false;
      }
      var status := ReadEncrypted(encrypted, key.value, io.readable);
      if status == Success {
        var parsed := ParseCache(encrypted.payload);
        if !parsed {
          SetPersistence(RecoveryRequired, migrationPending);
          return false;
        }
        ok := FinishReload(io);
      } else if status == NotFound {
        ok := Migrate(io);
      } else {
        if status != IoError {
          SetPersistence(RecoveryRequired, migrationPending);
        }
        return false;
      }
    }

    method SyncCachePersistence(provider: KeyState, derived: Option<nat>, io: LoadIo)
      modifies this
      ensures View() == Step(old(View()), SyncPersistence(provider, derived, io))
    {
      key, writable, memory := None, false, None;
      SetPersistence(Opening, migrationPending);
      if provider != KeyReady {
        SetPersistence(WithoutKey(provider), migrationPending);
      } else if derived.None? {
        SetPersistence(BackendError, migrationPending);
      } else {
        key := derived;
        var ok := LoadCache(io);
        if !ok && persistence == Opening {
          SetPersistence(BackendError, migrationPending);
        }
      }
    }

    /** `text` is what JSON makes of `items`. */
    method SaveCache(text: string, items: seq<Item>, written: bool)
      modifies this
      ensures View() == Step(old(View()), SaveEvents(text, items, written))
    {
      if !writable || key.None? || persistence != Ready {
        return;
      }
      if written {
        encrypted := Sealed(key.value, Payload(text, Some(items)));
      } else {
        writable := false;
        SetPersistence(BackendError, migrationPending);
      }
    }

    method ClearEncryptedCacheForRecovery(removed: bool) returns (ok: bool)
      modifies this
      ensures View() == Step(old(View()), ClearForRecovery(removed)) && ok == removed
    {
      key, writable := None, false;
      if !removed {
        SetPersistence(BackendError, migrationPending);
        return false;
      }
      encrypted := NoFile;
      SetPersistence(Opening, migrationPending);
      return true;
    }
  }
}
