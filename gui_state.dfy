/** `GUIState`: the persisted key/value settings of one GUI (phy/gui/gui.py).
    A `Bunch` is a dictionary whose attributes are its keys, so the two
    bookkeeping attributes `name` and `config_dir` live among the entries and
    `save` has to leave them out. */
module GuiState {
  import opened Common

  /** A JSON-like value: an opaque leaf (text, a geometry blob) or a nested
      dictionary (a `Bunch`). */
  datatype Value = Leaf(text: string) | Dict(entries: map<string, Value>)

  /** What `load` finds on disk: no file, a file that is not valid JSON, or a
      decoded JSON object. */
  datatype StateFile = Missing | Malformed | Decoded(data: map<string, Value>)

  const NameKey := "name"
  const ConfigDirKey := "config_dir"
  const GeometryKey := "geometry_state"

  /** Python truthiness of a value: empty strings and dictionaries are false. */
  predicate Truthy(v: Value)
  {
    match v
    case Leaf(t) => t != []
    case Dict(d) => d != map[]
  }

  /** The dictionary `save` writes: every entry except `config_dir` and `name`. */
  function Savable(entries: map<string, Value>): (data: map<string, Value>)
    ensures data.Keys == entries.Keys - {NameKey, ConfigDirKey}
    ensures forall k :: k in data ==> data[k] == entries[k]
  {
    map k | k in entries && k != NameKey && k != ConfigDirKey :: entries[k]
  }

  /** `load`: a decoded file is merged over the entries (its keys win); a
      missing or malformed file leaves them as they are. */
  function Loaded(entries: map<string, Value>, file: StateFile): (r: map<string, Value>)
    ensures file.Decoded? ==> r.Keys == entries.Keys + file.data.Keys
    ensures file.Decoded? ==> forall k :: k in file.data ==> r[k] == file.data[k]
    ensures file.Decoded? ==> forall k :: k in entries && k !in file.data ==> r[k] == entries[k]
    ensures !file.Decoded? ==> r == entries
  {
    if file.Decoded? then entries + file.data else entries
  }

  /** `config_dir or phy_config_dir()`: an absent or empty directory falls
      back to the default one. */
  function ConfigDir(given: Option<string>, default: string): (dir: string)
    ensures given.Some? && given.value != [] ==> dir == given.value
    ensures given.None? || given.value == [] ==> dir == default
  {
    if given.Some? && given.value != [] then given.value else default
  }

  /** The entries right after construction: the keyword arguments, then the
      two bookkeeping attributes, then what `load` read. */
  function InitialEntries(name: string, dir: string, extra: map<string, Value>, file: StateFile): map<string, Value>
  {
    Loaded(extra[NameKey := Leaf(name)][ConfigDirKey := Leaf(dir)], file)
  }

  /** Saving and then loading into a fresh state object gives back exactly
      what was saved, apart from the bookkeeping keys. */
  lemma SaveLoadRoundTrip(entries: map<string, Value>, name: string, dir: string)
    ensures Savable(InitialEntries(name, dir, map[], Decoded(Savable(entries)))) == Savable(entries)
  {
    var saved := Savable(entries);
    var reloaded := InitialEntries(name, dir, map[], Decoded(saved));
    assert reloaded.Keys == saved.Keys + {NameKey, ConfigDirKey};
    assert Savable(reloaded).Keys == saved.Keys;
  }

  class GUIState {
    var entries: map<string, Value>
    /** The dictionaries written to state.json so far, oldest first. */
    var written: seq<map<string, Value>>

    /** `GUIState(name, config_dir, **extra)`; `file` is what `load` finds at
        config_dir/name/state.json. */
    constructor (name: string, configDir: Option<string>, defaultDir: string,
                 extra: map<string, Value>, file: StateFile)
      requires NameKey !in extra && ConfigDirKey !in extra
      ensures entries == InitialEntries(name, ConfigDir(configDir, defaultDir), extra, file)
      ensures entries[NameKey] == (if file.Decoded? && NameKey in file.data then file.data[NameKey] else Leaf(name))
      ensures written == []
    {
      var e := extra[NameKey := Leaf(name)][ConfigDirKey := Leaf(ConfigDir(configDir, defaultDir))];
      entries := Loaded(e, file);
      written := [];
    }

    /** `self.get(key, default)`. */
    function Get(key: string, default: Value): (v: Value)
      reads this
      ensures key in entries ==> v == entries[key]
      ensures key !in entries ==> v == default
    {
      if key in entries then entries[key] else default
    }

    /** `get_view_state`: the entry under the view's name, or an empty dictionary. */
    function GetViewState(viewName: string): (v: Value)
      reads this
      ensures viewName in entries ==> v == entries[viewName]
      ensures viewName !in entries ==> v == Dict(map[]) && !Truthy(v)
    {
      Get(viewName, Dict(map[]))
    }

    /** `update_view_state`: create an empty dictionary under the view's name
        if there is none, then merge `update` into it. An entry that is not a
        dictionary has no `update` method (AttributeError, nothing changes). */
    method UpdateViewState(viewName: string, update: map<string, Value>) returns (r: Result<()>)
      modifies this`entries
      ensures r.Ok? <==> viewName !in old(entries) || old(entries)[viewName].Dict?
      ensures r.Err? ==> r.error == AttributeError && entries == old(entries)
      ensures r.Ok? ==>
        var before := if viewName in old(entries) then old(entries)[viewName].entries else map[];
        entries == old(entries)[viewName := Dict(before + update)]
    {
      if viewName !in entries {
        entries := entries[viewName := Dict(map[])];
      }
      match entries[viewName]
      case Leaf(_) =>
        r := Err(AttributeError);
      case Dict(d) =>
        entries := entries[viewName := Dict(d + update)];
        r := Ok(());
    }

    /** `save`: write every entry except the bookkeeping ones. */
    method Save()
      modifies this`written
      ensures written == old(written) + [Savable(entries)]
    {
      written := written + [Savable(entries)];
    }
  }

  /** After `update_view_state`, `get_view_state` shows the merged keys and
      every other view's entry is as before. */
  method UpdateThenGet(s: GUIState, viewName: string, update: map<string, Value>, other: string)
    requires other != viewName && (viewName !in s.entries || s.entries[viewName].Dict?)
    modifies s
  {
    var before := s.GetViewState(other);
    var r := s.UpdateViewState(viewName, update);
    assert r.Ok?;
    var after := s.GetViewState(viewName);
    assert after.Dict? && forall k :: k in update ==> k in after.entries && after.entries[k] == update[k];
    assert s.GetViewState(other) == before;
  }
}
