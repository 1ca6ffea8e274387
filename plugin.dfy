/**
 * The plugin object of main.ts with the fields its handlers update in
 * place, and the settings tab's change handlers. Every handler is proved
 * to take the object's state along `Debounce.Step`.
 */
module Plugin {
  import opened Wrappers
  import opened Snapshots
  import opened Json
  import opened Config
  import opened Debounce

  /** The settings object, created once and changed in place by the settings tab. */
  class ActiveNoteSettings {
    var pointerFilePath: string
    var debounceMs: int

    /** `DEFAULT_SETTINGS`, which is what `loadSettings` gives when nothing was saved. */
    constructor ()
      ensures pointerFilePath == [] && debounceMs == DefaultDebounceMs
    {
      pointerFilePath := [];
      debounceMs := DefaultDebounceMs;
    }
  }

  class ActiveNotePlugin {
    /** The vault's configuration directory (`app.vault.configDir`). */
    const configDir: string
    const settings: ActiveNoteSettings

    /** `debounceTimer`: null until the first debounced trigger, then the last handle armed. */
    var debounceTimer: Option<Handle>
    /** The host's timers for this plugin whose callback is still due to run. */
    var armed: set<Handle>
    /** The handle the host's next `setTimeout` returns. */
    var nextHandle: Handle
    /** Every change to the pointer file's content so far, oldest first. */
    ghost var log: seq<Write>

    ghost function State(): Machine
      reads this
    {
      Machine(debounceTimer, armed, nextHandle, log)
    }

    ghost predicate Valid()
      reads this
    {
      Inv(State())
    }

    /** The `pointerFilePath` getter. */
    function PointerFilePath(): string
      reads this, settings
    {
      ResolvePointerPath(settings.pointerFilePath, configDir)
    }

    /** The plugin once `onload` has run with no saved settings. */
    constructor (configDir: string)
      ensures Valid() && State() == Init()
      ensures this.configDir == configDir && fresh(settings)
      ensures settings.pointerFilePath == [] && settings.debounceMs == DefaultDebounceMs
    {
      this.configDir := configDir;
      settings := new ActiveNoteSettings();
      debounceTimer := None;
      armed := {};
      nextHandle := 1;
      log := [];
    }

    /**
     * `writePointer`: nothing without an active markdown view showing a
     * file; otherwise build the record, adding the selection block only
     * for non-empty selected text, and write it to the pointer path.
     */
    method WritePointer(active: Option<View>, io: WriteOutcome)
      requires Valid()
      modifies this`log
      ensures Valid()
      ensures State() == Debounce.WritePointer(old(State()), active, io, PointerFilePath())
    {
      if active.None? || active.value.file.None? {
        return;
      }
      var view := active.value;
      var data := Snapshot(view.file.value, NoSelection);
      if view.selectedText != [] {
        data := data.(selection := WithSelection(view.selectedText, view.fromLine + 1, view.toLine + 1));
      }
      var target := PointerFilePath();
      var content := Serialise(data);
      match io {
        case Written =>
          log := log + [Write(target, content)];
        case FailedBeforeOpen =>
        case FailedAfterOpen(kept) =>
          log := log + [Write(target, Torn(content, kept))];
      }
    }

    /** `writePointerDebounced`: clear the held timer, arm a new one and hold it. */
    method WritePointerDebounced()
      requires Valid()
      modifies this`debounceTimer, this`armed, this`nextHandle
      ensures Valid()
      ensures State() == Debounce.WritePointerDebounced(old(State()))
    {
      if debounceTimer.Some? {
        armed := armed - {debounceTimer.value};
      }
      var handle := nextHandle;
      nextHandle := nextHandle + 1;
      armed := armed + {handle};
      debounceTimer := Some(handle);
    }

    /** The `active-leaf-change` handler. */
    method OnLeafChange(active: Option<View>, io: WriteOutcome)
      requires Valid()
      modifies this
      ensures Valid()
      ensures State() == Step(old(State()), LeafChange(active, io), PointerFilePath())
    {
      WritePointer(active, io);
    }

    /** The `keyup` handler. */
    method OnKeyUp()
      requires Valid()
      modifies this
      ensures Valid()
      ensures State() == Step(old(State()), KeyUp, PointerFilePath())
    {
      WritePointerDebounced();
    }

    /** The `mouseup` handler. */
    method OnMouseUp()
      requires Valid()
      modifies this
      ensures Valid()
      ensures State() == Step(old(State()), MouseUp, PointerFilePath())
    {
      WritePointerDebounced();
    }

    /**
     * The host runs the callback of timer `handle`, which calls
     * `writePointer`. A cleared or already-run timer never runs, and
     * `debounceTimer` keeps its value either way.
     */
    method TimerFires(handle: Handle, active: Option<View>, io: WriteOutcome)
      requires Valid()
      modifies this
      ensures Valid()
      ensures State() == Step(old(State()), Event.TimerFires(handle, active, io), PointerFilePath())
    {
      if handle in armed {
        armed := armed - {handle};
        WritePointer(active, io);
      }
    }

    /** `onunload`: clear the held timer. */
    method OnUnload()
      requires Valid()
      modifies this
      ensures Valid() && !Pending(State())
      ensures State() == Step(old(State()), Unload, PointerFilePath())
    {
      if debounceTimer.Some? {
        armed := armed - {debounceTimer.value};
      }
    }
  }

  /** The change handlers of the settings tab's two text fields. */
  class ActiveNoteSettingTab {
    const plugin: ActiveNotePlugin

    constructor (plugin: ActiveNotePlugin)
      ensures this.plugin == plugin
    {
      this.plugin := plugin;
    }

    /** The pointer path field: any text, the empty string included, is stored as typed. */
    method OnPointerFilePathChange(value: string)
      modifies plugin.settings
      ensures plugin.settings.pointerFilePath == value
      ensures plugin.settings.debounceMs == old(plugin.settings.debounceMs)
      ensures plugin.PointerFilePath() == ResolvePointerPath(value, plugin.configDir)
    {
      plugin.settings.pointerFilePath := value;
    }

    /**
     * The interval field, given what `parseInt` made of the text: the
     * setting changes, and is saved, only for a parsed number no smaller
     * than zero.
     */
    method OnDebounceChange(parsed: Option<int>) returns (saved: bool)
      modifies plugin.settings
      ensures saved <==> parsed.Some? && parsed.value >= 0
      ensures plugin.settings.debounceMs == AcceptDebounce(old(plugin.settings.debounceMs), parsed)
      ensures plugin.settings.pointerFilePath == old(plugin.settings.pointerFilePath)
    {
      saved := parsed.Some? && parsed.value >= 0;
      if saved {
        plugin.settings.debounceMs := parsed.value;
      }
    }
  }

  /**
   * Three keystrokes in a row, then the host runs the timers it was given:
   * only the last one writes, once.
   */
  method KeystrokeBurst(active: Option<View>)
    requires BuildSnapshot(active).Some?
  {
    var p := new ActiveNotePlugin(".obsidian");
    p.OnKeyUp();
    p.OnKeyUp();
    p.OnKeyUp();
    assert p.log == [];
    p.TimerFires(1, active, Written);
    p.TimerFires(2, active, Written);
    assert p.log == [];
    p.TimerFires(3, active, Written);
    assert |p.log| == 1;
    p.TimerFires(3, active, Written);
    assert |p.log| == 1;
  }
}
