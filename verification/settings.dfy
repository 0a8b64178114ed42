/** The settings panel's edit buffer: `settings` holds what was last saved
    or loaded, `tempSettings` what the controls currently show. Edits go to
    the buffer only; saving commits it, resetting discards it. */
module Settings {
  import opened Wrappers

  /** The value kinds the settings object holds. */
  datatype SettingValue = Flag(b: bool) | Number(n: int) | Text(s: string) | Names(items: seq<string>)

  type SettingsMap = map<string, SettingValue>

  /** The initial settings object. */
  const Defaults: SettingsMap := map[
    "notifications" := Flag(true),
    "autoStart" := Flag(true),
    "minimizeToTray" := Flag(true),
    "trackIdleTime" := Flag(false),
    "idleThreshold" := Number(300),
    "dataRetention" := Number(90),
    "exportFormat" := Text("csv"),
    "updateInterval" := Number(1000),
    "enableLogging" := Flag(true),
    "logLevel" := Text("info"),
    "monitoredApps" := Names([]),
    "blacklistedApps" := Names([]),
    "privacyMode" := Flag(false),
    "autoBackup" := Flag(false),
    "backupInterval" := Number(7)
  ]

  datatype State = State(settings: SettingsMap, temp: SettingsMap)

  /** A message handed to `onNotification`, with its type. */
  datatype Notice = Notice(message: string, kind: string)

  /** Both slots start from the defaults. */
  function Initial(): State {
    State(Defaults, Defaults)
  }

  /** `hasChanges`: the buffer differs from the committed settings. */
  predicate HasChanges(st: State) {
    st.settings != st.temp
  }

  /** `handleSettingChange(key, value)`: `{...prev, [key]: value}` on the buffer. */
  function Change(st: State, key: string, value: SettingValue): (r: State)
    ensures r.settings == st.settings
    ensures key in r.temp && r.temp[key] == value
    ensures r.temp.Keys == st.temp.Keys + {key}
    ensures forall k :: k in st.temp && k != key ==> r.temp[k] == st.temp[k]
  {
    State(st.settings, st.temp[key := value])
  }

  /** `resetSettings`: the buffer takes the committed settings back. */
  function Reset(st: State): (r: (State, Notice))
    ensures r.0.settings == st.settings && r.0.temp == st.settings
  {
    (State(st.settings, st.settings), Notice("Settings reset", "info"))
  }

  /** Whether writing the settings out succeeded. */
  datatype SaveOutcome = Saved | SaveFailed

  /** `saveSettings`: on success the buffer is committed; on failure nothing changes. */
  function Save(st: State, outcome: SaveOutcome): (r: (State, Notice))
    ensures outcome == Saved ==> r.0.settings == st.temp && r.0.temp == st.temp
    ensures outcome == SaveFailed ==> r.0 == st
  {
    match outcome
    case Saved => (State(st.temp, st.temp), Notice("Settings saved successfully", "success"))
    case SaveFailed => (st, Notice("Failed to save settings", "error"))
  }

  /** What the stored settings entry held at start-up, once parsed. */
  datatype Stored = NothingStored | Unparsable | StoredSettings(value: SettingsMap)

  /** The start-up load: a parsed entry replaces both slots; a missing or
      unparsable entry changes nothing. */
  function Load(st: State, stored: Stored): (r: State)
    ensures stored.StoredSettings? ==> r.settings == stored.value && r.temp == stored.value
    ensures !stored.StoredSettings? ==> r == st
  {
    match stored
    case StoredSettings(m) => State(m, m)
    case _ => st
  }

  /** The chosen import file, once read and parsed. */
  datatype ImportFile = NoFile | InvalidFile | ImportedSettings(value: SettingsMap)

  /** `importSettings`: a parsed file replaces the buffer only; an invalid
      file only reports an error; no file does nothing at all. */
  function Import(st: State, file: ImportFile): (r: (State, Option<Notice>))
    ensures r.0.settings == st.settings
    ensures file.ImportedSettings? ==> r.0.temp == file.value
    ensures !file.ImportedSettings? ==> r.0 == st
    ensures file.NoFile? <==> r.1.None?
  {
    match file
    case NoFile => (st, None)
    case InvalidFile => (st, Some(Notice("Failed to import settings - Invalid file format", "error")))
    case ImportedSettings(m) => (State(st.settings, m), Some(Notice("Settings imported successfully", "success")))
  }

  /** One user or start-up action on the panel. */
  datatype Event =
    | ChangeSetting(key: string, value: SettingValue)
    | ResetChanges
    | SaveChanges(outcome: SaveOutcome)
    | LoadStored(stored: Stored)
    | ImportFrom(file: ImportFile)

  function Step(st: State, e: Event): State {
    match e
    case ChangeSetting(k, v) => Change(st, k, v)
    case ResetChanges => Reset(st).0
    case SaveChanges(o) => Save(st, o).0
    case LoadStored(s) => Load(st, s)
    case ImportFrom(f) => Import(st, f).0
  }

  function Run(st: State, events: seq<Event>): State
    decreases |events|
  {
    if |events| == 0 then st else Run(Step(st, events[0]), events[1..])
  }

  /** The events that write the committed slot. */
  predicate Commits(e: Event) {
    (e.SaveChanges? && e.outcome == Saved) || (e.LoadStored? && e.stored.StoredSettings?)
  }
}

/** Properties of the settings edit buffer. */
module SettingsProperties {
  import opened Wrappers
  import opened Settings

  /** Nothing is pending when the panel opens. */
  lemma InitialClean()
    ensures !HasChanges(Initial())
    ensures Initial().settings == Defaults
    ensures "notifications" in Initial().temp && Initial().temp["notifications"] == Flag(true)
    ensures "idleThreshold" in Initial().temp && Initial().temp["idleThreshold"] == Number(300)
    ensures "logLevel" in Initial().temp && Initial().temp["logLevel"] == Text("info")
    ensures "monitoredApps" in Initial().temp && Initial().temp["monitoredApps"] == Names([])
  {
  }

  /** Key `k` is present in one slot and not the other, or holds different
      values in the two. */
  predicate DiffersAt(st: State, k: string) {
    (k in st.settings) != (k in st.temp)
      || (k in st.settings && k in st.temp && st.settings[k] != st.temp[k])
  }

  /** Changes are pending exactly when the two slots differ at some key. */
  lemma HasChangesIff(st: State)
    ensures HasChanges(st) <==> exists k :: DiffersAt(st, k)
  {
    if !exists k :: DiffersAt(st, k) {
      forall k | k in st.settings
        ensures k in st.temp && st.settings[k] == st.temp[k]
      {
        assert !DiffersAt(st, k);
      }
      forall k | k in st.temp
        ensures k in st.settings
      {
        assert !DiffersAt(st, k);
      }
      assert st.settings == st.temp;
    }
  }

  /** From a clean state, one change is pending exactly when it sets a value
      different from the committed one. */
  lemma ChangeFromClean(st: State, key: string, value: SettingValue)
    requires !HasChanges(st)
    ensures HasChanges(Change(st, key, value)) <==> !(key in st.settings && st.settings[key] == value)
  {
    var r := Change(st, key, value);
    if key in st.settings && st.settings[key] == value {
      assert r.temp == st.temp;
    } else {
      assert key !in st.settings || r.temp[key] != st.settings[key];
    }
  }

  /** Reset and a successful save both leave nothing pending; a failed save
      leaves the pending state as it was. */
  lemma ResolvingChanges(st: State)
    ensures !HasChanges(Reset(st).0)
    ensures !HasChanges(Save(st, Saved).0)
    ensures HasChanges(Save(st, SaveFailed).0) == HasChanges(st)
  {
  }

  /** A change followed by a reset is as if the change never happened to the
      committed settings, and the buffer is the committed settings again. */
  lemma ChangeThenReset(st: State, key: string, value: SettingValue)
    ensures Reset(Change(st, key, value)).0 == State(st.settings, st.settings)
  {
  }

  /** After a successful load nothing is pending. */
  lemma LoadClears(st: State, m: SettingsMap)
    ensures !HasChanges(Load(st, StoredSettings(m)))
  {
  }

  /** An import leaves changes pending exactly when the file differs from
      the committed settings. */
  lemma ImportPending(st: State, m: SettingsMap)
    ensures HasChanges(Import(st, ImportedSettings(m)).0) <==> m != st.settings
  {
  }

  /** Only a successful save or a successful load writes the committed
      settings: any run of other actions leaves them as they were. */
  lemma {:induction false} CommittedOnlyBySaveOrLoad(st: State, events: seq<Event>)
    requires forall i :: 0 <= i < |events| ==> !Commits(events[i])
    ensures Run(st, events).settings == st.settings
    decreases |events|
  {
    if |events| > 0 {
      var next := Step(st, events[0]);
      assert next.settings == st.settings;
      CommittedOnlyBySaveOrLoad(next, events[1..]);
    }
  }

  /** Whatever came before, a run that ends with a successful save leaves
      nothing pending and commits the buffer as it stood. */
  lemma {:induction false} SaveLast(st: State, events: seq<Event>)
    ensures var before := Run(st, events);
      var after := Run(st, events + [SaveChanges(Saved)]);
      !HasChanges(after) && after.settings == before.temp
    decreases |events|
  {
    if |events| > 0 {
      assert (events + [SaveChanges(Saved)])[1..] == events[1..] + [SaveChanges(Saved)];
      SaveLast(Step(st, events[0]), events[1..]);
    } else {
      assert events + [SaveChanges(Saved)] == [SaveChanges(Saved)];
    }
  }
}
