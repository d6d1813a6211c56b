/** The application store: user settings, the transient UI flags, the
    selected master, the game history and one analysis session per game.

    Every action replaces some fields of the store; `stopSession` also
    aborts the cancellation handle held by the session it stops. The
    persistence layer and the state library that calls the actions are not
    part of the model: `Partialize` is what is written out, and `Rehydrate`
    is the shallow merge that reads it back followed by the store's own
    rehydration callback. */
module Store {
  import opened Wrappers
  import opened JsValue

  /** The lifecycle of one analysis request. */
  datatype Status = Idle | Running | Completed | Errored | Stopped

  /** A cooperative cancellation handle (`AbortController`). */
  class Controller {
    var aborted: bool

    constructor ()
      ensures !aborted
    {
      aborted := false;
    }

    /** `abort()`: once aborted, a handle stays aborted. */
    method Abort()
      modifies this
      ensures aborted
    {
      aborted := true;
    }
  }

  /** The analysis part of a session. `None` stands for `null`. */
  datatype Analysis = Analysis(
    status: Status,
    text: string,
    error: Option<string>,
    startedAt: Option<int>,
    completedAt: Option<int>,
    controller: Option<Controller>)

  /** A `Partial<AnalysisSessionState>`: `None` is a field the caller left
      out, `Some(v)` a field it provides. */
  datatype AnalysisPatch = AnalysisPatch(
    status: Option<Status>,
    text: Option<string>,
    error: Option<Option<string>>,
    startedAt: Option<Option<int>>,
    completedAt: Option<Option<int>>,
    controller: Option<Option<Controller>>)

  /** The state of one divination game: the data it was cast from (`JNull`
      for `null`) and its analysis. */
  datatype Session = Session(data: Json, analysis: Analysis)

  const NO_PATCH := AnalysisPatch(None, None, None, None, None, None)

  const EMPTY_ANALYSIS := Analysis(Idle, "", None, None, None, None)

  /** `createEmptySession()`. */
  function EmptySession(): (r: Session)
    ensures r.data == JNull
    ensures r.analysis.status == Idle && r.analysis.text == []
    ensures r.analysis.error.None? && r.analysis.controller.None?
    ensures r.analysis.startedAt.None? && r.analysis.completedAt.None?
  {
    Session(JNull, EMPTY_ANALYSIS)
  }

  /** `{ ...a, ...p }`: each provided field of the patch replaces the
      analysis field of the same name. */
  function Merge(a: Analysis, p: AnalysisPatch): Analysis {
    Analysis(
      if p.status.Some? then p.status.value else a.status,
      if p.text.Some? then p.text.value else a.text,
      if p.error.Some? then p.error.value else a.error,
      if p.startedAt.Some? then p.startedAt.value else a.startedAt,
      if p.completedAt.Some? then p.completedAt.value else a.completedAt,
      if p.controller.Some? then p.controller.value else a.controller)
  }

  /** The patch that provides every field `q` provides, and the other
      fields of `p`. */
  function Overlay(p: AnalysisPatch, q: AnalysisPatch): AnalysisPatch {
    AnalysisPatch(
      if q.status.Some? then q.status else p.status,
      if q.text.Some? then q.text else p.text,
      if q.error.Some? then q.error else p.error,
      if q.startedAt.Some? then q.startedAt else p.startedAt,
      if q.completedAt.Some? then q.completedAt else p.completedAt,
      if q.controller.Some? then q.controller else p.controller)
  }

  /** An empty patch changes nothing. */
  lemma MergeNothing(a: Analysis)
    ensures Merge(a, NO_PATCH) == a
  {
  }

  /** Applying a patch twice is applying it once. */
  lemma MergeIdempotent(a: Analysis, p: AnalysisPatch)
    ensures Merge(Merge(a, p), p) == Merge(a, p)
  {
  }

  /** Two patches in a row are the later one laid over the earlier one. */
  lemma MergeSequence(a: Analysis, p: AnalysisPatch, q: AnalysisPatch)
    ensures Merge(Merge(a, p), q) == Merge(a, Overlay(p, q))
  {
  }

  /** A master persona. */
  datatype Master = Master(id: string, name: string, description: string, prompt: string)

  const DEFAULT_MASTER_ID := "zhouwenwang"

  const DEFAULT_MASTER := Master(
    DEFAULT_MASTER_ID,
    "周文王",
    "周朝奠基人，精通易经，开创八卦理论，被誉为易学之祖",
    "你是周文王，古代圣贤，精通易经占卜。你深谙八卦变化之理，能够通过卦象洞察天机，解读人生吉凶。在回答时要体现你的深厚易学功底，语言古朴典雅，充满智慧。请根据提供的占卜信息，给出详细而准确的解读，包含具体的指导建议。")

  /** `masters.find(m => m.id === id)`, as the index of the first match. */
  function FindMaster(masters: seq<Master>, id: string): (r: Option<nat>)
    ensures r.Some? ==> r.value < |masters| && masters[r.value].id == id
    ensures r.Some? ==> forall j :: 0 <= j < r.value ==> masters[j].id != id
    ensures r.None? <==> forall j :: 0 <= j < |masters| ==> masters[j].id != id
  {
    if |masters| == 0 then None
    else if masters[0].id == id then Some(0)
    else
      match FindMaster(masters[1..], id)
      case None => None
      case Some(k) => Some(k + 1)
  }

  /** Whether `initializeDefaultMaster` replaces the selection: nothing is
      selected, or the list of available masters is non-empty and does
      not hold the selected id. */
  predicate NeedsDefault(selected: Option<Master>, available: seq<Master>) {
    selected.None? || (|available| > 0 && FindMaster(available, selected.value.id).None?)
  }

  /** The master `initializeDefaultMaster` selects: the available
      `zhouwenwang` entry, or else the built-in default. */
  function Fallback(available: seq<Master>): (r: Master)
    ensures r.id == DEFAULT_MASTER_ID
    ensures r in available || r == DEFAULT_MASTER
    ensures r != DEFAULT_MASTER ==> r in available
    ensures FindMaster(available, DEFAULT_MASTER_ID).None? ==> r == DEFAULT_MASTER
  {
    match FindMaster(available, DEFAULT_MASTER_ID)
    case Some(k) => available[k]
    case None => DEFAULT_MASTER
  }

  /** The selection after `initializeDefaultMaster`. */
  function DefaultSelection(selected: Option<Master>, available: seq<Master>): (r: Option<Master>)
    ensures r.Some?
    ensures !NeedsDefault(selected, available) ==> r == selected
    ensures NeedsDefault(selected, available) ==> r == Some(Fallback(available))
  {
    if NeedsDefault(selected, available) then Some(Fallback(available)) else selected
  }

  /** Initialising the default master a second time changes nothing. */
  lemma DefaultSelectionIdempotent(selected: Option<Master>, available: seq<Master>)
    ensures DefaultSelection(DefaultSelection(selected, available), available)
         == DefaultSelection(selected, available)
  {
    var s := DefaultSelection(selected, available);
    if NeedsDefault(selected, available) {
      var f := Fallback(available);
      if FindMaster(available, DEFAULT_MASTER_ID).Some? {
        var k := FindMaster(available, DEFAULT_MASTER_ID).value;
        assert FindMaster(available, f.id).Some?;
      }
    }
  }

  /** After initialisation the selected master is available whenever a
      `zhouwenwang` entry is. */
  lemma DefaultSelectionAvailable(selected: Option<Master>, available: seq<Master>)
    requires FindMaster(available, DEFAULT_MASTER_ID).Some?
    ensures FindMaster(available, DefaultSelection(selected, available).value.id).Some?
  {
  }

  /** The user settings. `legacyOpenaiKey` is the `openaiApiKey` property
      that settings written by older versions may still carry. */
  datatype Settings = Settings(
    apiKey: string,
    theme: string,
    sidebarCollapsed: bool,
    serverUrl: string,
    legacyOpenaiKey: Option<string>)

  /** A `Partial<Settings>`: `None` is a field the caller left out. */
  datatype SettingsPatch = SettingsPatch(
    apiKey: Option<string>,
    theme: Option<string>,
    sidebarCollapsed: Option<bool>,
    serverUrl: Option<string>)

  /** `defaultSettings`; the default server address comes from the
      deployment and is a parameter. */
  function DefaultSettings(serverUrl: string): Settings {
    Settings("", "dark", false, serverUrl, None)
  }

  /** `{ ...sanitizedCurrent, ...newSettings }`: the current settings
      without the legacy key, with each provided field replaced. */
  function Updated(s: Settings, p: SettingsPatch): (r: Settings)
    ensures r.legacyOpenaiKey.None?
    ensures r.apiKey == (if p.apiKey.Some? then p.apiKey.value else s.apiKey)
    ensures r.theme == (if p.theme.Some? then p.theme.value else s.theme)
    ensures r.sidebarCollapsed == (if p.sidebarCollapsed.Some? then p.sidebarCollapsed.value else s.sidebarCollapsed)
    ensures r.serverUrl == (if p.serverUrl.Some? then p.serverUrl.value else s.serverUrl)
  {
    Settings(
      if p.apiKey.Some? then p.apiKey.value else s.apiKey,
      if p.theme.Some? then p.theme.value else s.theme,
      if p.sidebarCollapsed.Some? then p.sidebarCollapsed.value else s.sidebarCollapsed,
      if p.serverUrl.Some? then p.serverUrl.value else s.serverUrl,
      None)
  }

  /** Updating twice with the same fields is updating once. */
  lemma UpdatedIdempotent(s: Settings, p: SettingsPatch)
    ensures Updated(Updated(s, p), p) == Updated(s, p)
  {
  }

  /** An update that provides nothing only drops the legacy key. */
  lemma UpdatedNothing(s: Settings)
    ensures Updated(s, SettingsPatch(None, None, None, None)) == s.(legacyOpenaiKey := None)
  {
  }

  /** `{ ...settings, sidebarCollapsed: !settings.sidebarCollapsed }`. */
  function Toggled(s: Settings): (r: Settings)
    ensures r.sidebarCollapsed == !s.sidebarCollapsed
    ensures r.(sidebarCollapsed := s.sidebarCollapsed) == s
  {
    s.(sidebarCollapsed := !s.sidebarCollapsed)
  }

  /** Toggling the sidebar twice restores the settings. */
  lemma ToggledInvolution(s: Settings)
    ensures Toggled(Toggled(s)) == s
  {
  }

  /** `StorageResult<void>`. */
  datatype StorageResult = StorageResult(success: bool, error: Option<string>)

  /** What `saveSettings` does: it returns a result, or throws; a thrown
      `Error` carries its message. */
  datatype SaveOutcome = Returned(result: StorageResult) | Threw(message: Option<string>)

  const UPDATE_FAILED := "更新设置失败"

  /** The result `updateSettings` reports for an outcome of the save. */
  function Reported(o: SaveOutcome): (r: StorageResult)
    ensures o.Returned? ==> r == o.result
    ensures o.Threw? ==> !r.success
    ensures o.Threw? && o.message.Some? ==> r.error == o.message
    ensures o.Threw? && o.message.None? ==> r.error == Some(UPDATE_FAILED)
  {
    match o
    case Returned(res) => res
    case Threw(m) => StorageResult(false, if m.Some? then m else Some(UPDATE_FAILED))
  }

  const HISTORY_LIMIT := 100

  /** `[record, ...history].slice(0, 100)`. */
  function Pushed<T>(history: seq<T>, record: T): (r: seq<T>)
    ensures |r| == if |history| < HISTORY_LIMIT then |history| + 1 else HISTORY_LIMIT
    ensures r[0] == record
    ensures r[1..] == history[..|r| - 1]
  {
    ([record] + history)[..if |history| < HISTORY_LIMIT then |history| + 1 else HISTORY_LIMIT]
  }

  /** A record pushed is found at position `k` after `k` further pushes,
      as long as fewer than 100 pushes followed it. */
  lemma {:induction false} PushedKeepsRecent<T>(history: seq<T>, record: T, later: seq<T>)
    requires |later| < HISTORY_LIMIT
    ensures |PushAll(Pushed(history, record), later)| > |later|
    ensures PushAll(Pushed(history, record), later)[|later|] == record
    decreases |later|
  {
    PushAllLength(Pushed(history, record), later);
    if |later| > 0 {
      var h := PushAll(Pushed(history, record), later[..|later| - 1]);
      PushedKeepsRecent(history, record, later[..|later| - 1]);
      assert later[..|later| - 1] + [later[|later| - 1]] == later;
      PushAllLast(Pushed(history, record), later);
      assert PushAll(Pushed(history, record), later) == Pushed(h, later[|later| - 1]);
      assert |h| > |later| - 1 by { PushAllLength(Pushed(history, record), later[..|later| - 1]); }
      assert Pushed(h, later[|later| - 1])[1..][|later| - 1] == h[|later| - 1];
    }
  }

  /** The history after pushing `records` in order. */
  function PushAll<T>(history: seq<T>, records: seq<T>): (r: seq<T>)
    decreases |records|
  {
    if |records| == 0 then history
    else Pushed(PushAll(history, records[..|records| - 1]), records[|records| - 1])
  }

  lemma PushAllLast<T>(history: seq<T>, records: seq<T>)
    requires |records| > 0
    ensures PushAll(history, records)
         == Pushed(PushAll(history, records[..|records| - 1]), records[|records| - 1])
  {
  }

  /** Each push keeps at least the records pushed so far, up to 100. */
  lemma {:induction false} PushAllLength<T>(history: seq<T>, records: seq<T>)
    requires |history| >= 1
    ensures |PushAll(history, records)| >= |records| + 1 || |PushAll(history, records)| == HISTORY_LIMIT
    ensures |records| < HISTORY_LIMIT ==> |PushAll(history, records)| > |records|
    decreases |records|
  {
    if |records| > 0 {
      PushAllLength(history, records[..|records| - 1]);
    }
  }

  /** The part of the store that is written to local storage. */
  datatype Persisted = Persisted(settings: Settings, selectedMaster: Option<Master>, gameHistory: seq<Json>)

  /** A snapshot of every field of the store. */
  datatype StoreState = StoreState(
    settings: Settings,
    loading: bool,
    error: Option<string>,
    selectedMaster: Option<Master>,
    availableMasters: seq<Master>,
    currentGame: Option<string>,
    gameHistory: seq<Json>,
    divinationSessions: map<string, Session>)

  /** The session `g` as an action finds it: the stored one, or a fresh
      empty one. */
  function SessionOrEmpty(sessions: map<string, Session>, g: string): (r: Session)
    ensures g in sessions ==> r == sessions[g]
    ensures g !in sessions ==> r == EmptySession()
  {
    if g in sessions then sessions[g] else EmptySession()
  }

  /** The persisted state as the rehydration callback leaves it: a missing
      selection becomes the default master. */
  function Restored(p: Persisted): (r: Persisted)
    ensures r.settings == p.settings && r.gameHistory == p.gameHistory
    ensures r.selectedMaster.Some?
    ensures p.selectedMaster.Some? ==> r.selectedMaster == p.selectedMaster
    ensures p.selectedMaster.None? ==> r.selectedMaster == Some(DEFAULT_MASTER)
  {
    if p.selectedMaster.None? then p.(selectedMaster := Some(DEFAULT_MASTER)) else p
  }

  class AppStore {
    var settings: Settings
    var loading: bool
    var error: Option<string>
    var selectedMaster: Option<Master>
    var availableMasters: seq<Master>
    var currentGame: Option<string>
    var gameHistory: seq<Json>
    var divinationSessions: map<string, Session>

    /** The history never holds more than 100 records. */
    predicate Valid()
      reads this
    {
      |gameHistory| <= HISTORY_LIMIT
    }

    function State(): StoreState
      reads this
    {
      StoreState(settings, loading, error, selectedMaster, availableMasters,
                 currentGame, gameHistory, divinationSessions)
    }

    /** The cancellation handle stored for game `g`, if any. */
    function HandleOf(g: string): set<Controller>
      reads this
    {
      if g in divinationSessions && divinationSessions[g].analysis.controller.Some?
      then {divinationSessions[g].analysis.controller.value}
      else {}
    }

    /** The initial store. */
    constructor (serverUrl: string)
      ensures Valid()
      ensures State() == StoreState(DefaultSettings(serverUrl), false, None, Some(DEFAULT_MASTER),
                                    [], None, [], map[])
    {
      settings := DefaultSettings(serverUrl);
      loading := false;
      error := None;
      selectedMaster := Some(DEFAULT_MASTER);
      availableMasters := [];
      currentGame := None;
      gameHistory := [];
      divinationSessions := map[];
    }

    /** `setSessionData(g, data)`: only the data of session `g` changes;
        its analysis is kept, or is the empty one if `g` was absent. */
    method SetSessionData(g: string, data: Json)
      modifies this
      ensures old(Valid()) ==> Valid()
      ensures State() == old(State()).(divinationSessions := divinationSessions)
      ensures divinationSessions.Keys == old(divinationSessions).Keys + {g}
      ensures forall k :: k in old(divinationSessions) && k != g ==> divinationSessions[k] == old(divinationSessions)[k]
      ensures divinationSessions[g].data == data
      ensures divinationSessions[g].analysis == SessionOrEmpty(old(divinationSessions), g).analysis
    {
      var session := SessionOrEmpty(divinationSessions, g);
      divinationSessions := divinationSessions[g := session.(data := data)];
    }

    /** `setSessionAnalysis(g, patch)`: exactly the provided analysis
        fields of session `g` change. */
    method SetSessionAnalysis(g: string, patch: AnalysisPatch)
      modifies this
      ensures old(Valid()) ==> Valid()
      ensures State() == old(State()).(divinationSessions := divinationSessions)
      ensures divinationSessions.Keys == old(divinationSessions).Keys + {g}
      ensures forall k :: k in old(divinationSessions) && k != g ==> divinationSessions[k] == old(divinationSessions)[k]
      ensures var before := SessionOrEmpty(old(divinationSessions), g);
              var after := divinationSessions[g];
              && after.data == before.data
              && after.analysis.status == (if patch.status.Some? then patch.status.value else before.analysis.status)
              && after.analysis.text == (if patch.text.Some? then patch.text.value else before.analysis.text)
              && after.analysis.error == (if patch.error.Some? then patch.error.value else before.analysis.error)
              && after.analysis.startedAt == (if patch.startedAt.Some? then patch.startedAt.value else before.analysis.startedAt)
              && after.analysis.completedAt == (if patch.completedAt.Some? then patch.completedAt.value else before.analysis.completedAt)
              && after.analysis.controller == (if patch.controller.Some? then patch.controller.value else before.analysis.controller)
    {
      var session := SessionOrEmpty(divinationSessions, g);
      divinationSessions := divinationSessions[g := session.(analysis := Merge(session.analysis, patch))];
    }

    /** `resetSession(g)`: session `g` becomes the empty session. */
    method ResetSession(g: string)
      modifies this
      ensures old(Valid()) ==> Valid()
      ensures State() == old(State()).(divinationSessions := divinationSessions)
      ensures divinationSessions.Keys == old(divinationSessions).Keys + {g}
      ensures forall k :: k in old(divinationSessions) && k != g ==> divinationSessions[k] == old(divinationSessions)[k]
      ensures divinationSessions[g] == EmptySession()
    {
      divinationSessions := divinationSessions[g := EmptySession()];
    }

    /** `stopSession(g, now)`: the handle of session `g`, if it has one, is
        aborted; then the session is marked stopped at `now` and loses its
        handle, keeping its text, error, start time and data. */
    method StopSession(g: string, now: int)
      modifies this, HandleOf(g)
      ensures old(Valid()) ==> Valid()
      ensures State() == old(State()).(divinationSessions := divinationSessions)
      ensures forall c :: c in old(HandleOf(g)) ==> c.aborted
      ensures divinationSessions.Keys == old(divinationSessions).Keys + {g}
      ensures forall k :: k in old(divinationSessions) && k != g ==> divinationSessions[k] == old(divinationSessions)[k]
      ensures var before := SessionOrEmpty(old(divinationSessions), g);
              divinationSessions[g]
              == before.(analysis := before.analysis.(status := Stopped, controller := None, completedAt := Some(now)))
      ensures divinationSessions[g].analysis.status == Stopped
      ensures divinationSessions[g].analysis.controller.None?
    {
      if g in divinationSessions && divinationSessions[g].analysis.controller.Some? {
        divinationSessions[g].analysis.controller.value.Abort();
      }
      var current := SessionOrEmpty(divinationSessions, g);
      var analysis := current.analysis.(status := Stopped, controller := None, completedAt := Some(now));
      divinationSessions := divinationSessions[g := current.(analysis := analysis)];
    }

    /** `addToHistory(record)`: the newest record first, at most 100 kept. */
    method AddToHistory(record: Json)
      modifies this
      ensures Valid()
      ensures State() == old(State()).(gameHistory := gameHistory)
      ensures gameHistory == Pushed(old(gameHistory), record)
      ensures gameHistory[0] == record
    {
      gameHistory := Pushed(gameHistory, record);
    }

    /** `clearHistory()`. */
    method ClearHistory()
      modifies this
      ensures Valid()
      ensures State() == old(State()).(gameHistory := [])
    {
      gameHistory := [];
    }

    /** `setSelectedMaster(master)`. */
    method SetSelectedMaster(master: Option<Master>)
      modifies this
      ensures old(Valid()) ==> Valid()
      ensures State() == old(State()).(selectedMaster := master)
    {
      selectedMaster := master;
    }

    /** `setAvailableMasters(masters)`. */
    method SetAvailableMasters(masters: seq<Master>)
      modifies this
      ensures old(Valid()) ==> Valid()
      ensures State() == old(State()).(availableMasters := masters)
    {
      availableMasters := masters;
    }

    /** `initializeDefaultMaster()`: a master is selected afterwards; the
        selection changes only when nothing was selected or the available
        masters are known and lack the selected one. */
    method InitializeDefaultMaster()
      modifies this
      ensures old(Valid()) ==> Valid()
      ensures State() == old(State()).(selectedMaster := selectedMaster)
      ensures selectedMaster == DefaultSelection(old(selectedMaster), availableMasters)
      ensures selectedMaster.Some?
      ensures !NeedsDefault(old(selectedMaster), availableMasters) ==> selectedMaster == old(selectedMaster)
    {
      if selectedMaster.None? || (|availableMasters| > 0 && FindMaster(availableMasters, selectedMaster.value.id).None?) {
        var chosen := Fallback(availableMasters);
        selectedMaster := Some(chosen);
      }
    }

    /** `setApiKey(key)`: only the key changes. */
    method SetApiKey(key: string)
      modifies this
      ensures old(Valid()) ==> Valid()
      ensures State() == old(State()).(settings := old(settings).(apiKey := key))
    {
      settings := settings.(apiKey := key);
    }

    /** `setSidebarCollapsed(collapsed)`. */
    method SetSidebarCollapsed(collapsed: bool)
      modifies this
      ensures old(Valid()) ==> Valid()
      ensures State() == old(State()).(settings := old(settings).(sidebarCollapsed := collapsed))
    {
      settings := settings.(sidebarCollapsed := collapsed);
    }

    /** `toggleSidebar()`: only `sidebarCollapsed` flips. */
    method ToggleSidebar()
      modifies this
      ensures old(Valid()) ==> Valid()
      ensures State() == old(State()).(settings := Toggled(old(settings)))
      ensures settings.sidebarCollapsed == !old(settings).sidebarCollapsed
    {
      settings := settings.(sidebarCollapsed := !settings.sidebarCollapsed);
    }

    /** `resetSettings()`. */
    method ResetSettings(serverUrl: string)
      modifies this
      ensures old(Valid()) ==> Valid()
      ensures State() == old(State()).(settings := DefaultSettings(serverUrl))
    {
      settings := DefaultSettings(serverUrl);
    }

    /** `updateSettings(patch)`: the merged settings, without the legacy
        key, are handed to `save`; the store takes them only when the save
        reports success, and the save's result (or the failure for a throw)
        is returned. */
    method UpdateSettings(patch: SettingsPatch, save: Settings -> SaveOutcome) returns (r: StorageResult)
      modifies this
      ensures old(Valid()) ==> Valid()
      ensures var o := save(Updated(old(settings), patch));
              && r == Reported(o)
              && (o.Returned? && o.result.success ==> State() == old(State()).(settings := Updated(old(settings), patch)))
              && (!(o.Returned? && o.result.success) ==> State() == old(State()))
      ensures r.success ==> settings == Updated(old(settings), patch) && settings.legacyOpenaiKey.None?
      ensures !r.success ==> settings == old(settings)
    {
      var updated := Updated(settings, patch);
      var outcome := save(updated);
      if outcome.Returned? && outcome.result.success {
        settings := updated;
      }
      r := Reported(outcome);
    }

    /** `setError(message)`. */
    method SetError(message: Option<string>)
      modifies this
      ensures old(Valid()) ==> Valid()
      ensures State() == old(State()).(error := message)
    {
      error := message;
    }

    /** `clearError()`. */
    method ClearError()
      modifies this
      ensures old(Valid()) ==> Valid()
      ensures State() == old(State()).(error := None)
    {
      error := None;
    }

    /** `setLoading(flag)`. */
    method SetLoading(flag: bool)
      modifies this
      ensures old(Valid()) ==> Valid()
      ensures State() == old(State()).(loading := flag)
    {
      loading := flag;
    }

    /** `setCurrentGame(g)`. */
    method SetCurrentGame(g: Option<string>)
      modifies this
      ensures old(Valid()) ==> Valid()
      ensures State() == old(State()).(currentGame := g)
    {
      currentGame := g;
    }

    /** `partialize`: only the settings, the selected master and the
        history are written out. */
    function Partialize(): (p: Persisted)
      reads this
    {
      Persisted(settings, selectedMaster, gameHistory)
    }

    /** Rehydration: the persisted fields replace the store's, then a
        missing selection becomes the default master. Writing the store out
        again gives back what was read, with the default selection filled
        in. */
    method Rehydrate(p: Persisted)
      modifies this
      ensures Partialize() == Restored(p)
      ensures Valid() <==> |p.gameHistory| <= HISTORY_LIMIT
      ensures State() == old(State()).(settings := p.settings, selectedMaster := Restored(p).selectedMaster,
                                       gameHistory := p.gameHistory)
    {
      settings := p.settings;
      selectedMaster := p.selectedMaster;
      gameHistory := p.gameHistory;
      if selectedMaster.None? {
        selectedMaster := Some(DEFAULT_MASTER);
      }
    }
  }

  /** A rehydrated store writes out a fixed point: reading back what it
      wrote changes nothing more. */
  lemma RestoredIdempotent(p: Persisted)
    ensures Restored(Restored(p)) == Restored(p)
  {
  }
}
