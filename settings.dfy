/**
 * The display settings (server/settings.go): sixteen defaults stored under
 * "Settings.View.<name>" and "Settings.Preview.<name>", and a pattern
 * updater on "Settings" that stores what a client sends, trimmed, or
 * deletes the setting when nothing but space was sent.
 */
module Settings {
  import opened GoBase
  import opened GoStrconv
  import opened TypedStore
  import opened HolderStore
  import opened StateUpdater
  import opened Pattern

  datatype Default = Default(name: string, value: string)

  /** The defaults, in the order they are written. */
  function Defaults(): seq<Default>
  {
    [ Default("BackgroundStyle", "bg_blacktowhite"),
      Default("BoxStyle", "box_flat"),
      Default("CurrentView", "scoreboard"),
      Default("HideJamTotals", "false"),
      Default("SwapTeams", "false"),
      Default("Image", "/images/fullscreen/American Flag.jpg"),
      Default("Video", "/videos/American Flag.webm"),
      Default("CustomHtml", "/customhtml/example") ]
  }

  /** The two views every default is written for. */
  function Views(): seq<string>
  {
    ["View", "Preview"]
  }

  /** fmt.Sprintf("Settings.%v.%v", view, name) */
  function SettingKey(view: string, name: string): string
  {
    "Settings." + view + "." + name
  }

  /** The n-th write initSettings makes: views outside, defaults inside. */
  function WriteAt(n: nat): (string, string)
    requires n < 16
  {
    var d := Defaults()[n % 8];
    (SettingKey(Views()[n / 8], d.name), d.value)
  }

  /** What the first n writes leave in the store, as a map from key to text. */
  function WrittenBy(n: nat): map<string, string>
    requires n <= 16
  {
    if n == 0 then map[] else WrittenBy(n - 1)[WriteAt(n - 1).0 := WriteAt(n - 1).1]
  }

  /** Everything initSettings writes. */
  function DefaultSettings(): map<string, string>
  {
    WrittenBy(16)
  }

  /** No two of the sixteen writes share a key. */
  lemma WriteKeysDistinct(m: nat, n: nat)
    requires m < n < 16
    ensures WriteAt(m).0 != WriteAt(n).0
  {
    var vm, vn := Views()[m / 8], Views()[n / 8];
    var dm, dn := Defaults()[m % 8].name, Defaults()[n % 8].name;
    if m / 8 != n / 8 {
      assert SettingKey(vm, dm)[9] != SettingKey(vn, dn)[9];
    } else {
      var p := "Settings." + vm + ".";
      assert SettingKey(vm, dm) == p + dm && SettingKey(vn, dn) == p + dn;
      assert m % 8 != n % 8;
      NamesDistinct(m % 8, n % 8);
      assert (p + dm)[|p|..] == dm && (p + dn)[|p|..] == dn;
    }
  }

  lemma NamesDistinct(i: nat, j: nat)
    requires i < j < |Defaults()|
    ensures Defaults()[i].name != Defaults()[j].name
  {
  }

  /** A key none of the first n writes uses is not among the settings they leave. */
  lemma {:induction false} NotWritten(key: string, n: nat)
    requires n <= 16
    requires forall m :: 0 <= m < n ==> WriteAt(m).0 != key
    ensures key !in WrittenBy(n)
  {
    if n > 0 {
      NotWritten(key, n - 1);
    }
  }

  /** The n-th write is to a key none of the earlier writes used. */
  lemma FreshKey(n: nat)
    requires n < 16
    ensures WriteAt(n).0 !in WrittenBy(n)
  {
    forall m | 0 <= m < n
      ensures WriteAt(m).0 != WriteAt(n).0
    {
      WriteKeysDistinct(m, n);
    }
    NotWritten(WriteAt(n).0, n);
  }

  /** Each write survives the later ones. */
  lemma {:induction false} WrittenByHolds(n: nat)
    requires n <= 16
    ensures forall m :: 0 <= m < n ==> WriteAt(m).0 in WrittenBy(n) && WrittenBy(n)[WriteAt(m).0] == WriteAt(m).1
  {
    if n > 0 {
      WrittenByHolds(n - 1);
      FreshKey(n - 1);
      var w, last := WrittenBy(n - 1), WriteAt(n - 1);
      assert WrittenBy(n) == w[last.0 := last.1];
      forall m | 0 <= m < n - 1
        ensures WriteAt(m).0 in WrittenBy(n) && WrittenBy(n)[WriteAt(m).0] == WriteAt(m).1
      {
        assert WriteAt(m).0 in w && WriteAt(m).0 != last.0;
      }
    }
  }

  /** No two writes share a key: the first n writes leave n settings. */
  lemma {:induction false} WrittenBySize(n: nat)
    requires n <= 16
    ensures |WrittenBy(n)| == n
  {
    if n > 0 {
      WrittenBySize(n - 1);
      FreshKey(n - 1);
    }
  }

  /**
   * The defaults as the source lists them: every name under both views,
   * with its default text, and sixteen settings in all.
   */
  lemma DefaultsStored(i: nat, j: nat)
    requires i < |Views()| && j < |Defaults()|
    ensures SettingKey(Views()[i], Defaults()[j].name) in DefaultSettings()
    ensures DefaultSettings()[SettingKey(Views()[i], Defaults()[j].name)] == Defaults()[j].value
    ensures |DefaultSettings()| == 16
  {
    WrittenByHolds(16);
    WrittenBySize(16);
    var n := i * 8 + j;
    Position(i, j, n);
    assert WriteAt(n) == (SettingKey(Views()[i], Defaults()[j].name), Defaults()[j].value);
  }

  /**
   * setSettings' decision: the trimmed text to store, or None to delete
   * the setting when the text is empty or all space.
   */
  function SettingsAction(v: string): Option<string>
  {
    var t := TrimSpace(v);
    if t == "" then None else Some(t)
  }

  /**
   * Nothing is stored exactly when the text is all space; otherwise the
   * stored text is a piece of the one sent, with no space at either end.
   */
  lemma SettingsActionTrims(v: string)
    ensures SettingsAction(v).None? <==> forall i :: 0 <= i < |v| ==> IsSpace(v[i])
    ensures SettingsAction(v).Some? ==> var t := SettingsAction(v).value;
      |t| > 0 && !IsSpace(t[0]) && !IsSpace(t[|t| - 1]) && exists i: nat :: OccursAt(v, t, i)
  {
    var t := TrimSpace(v);
    assert t == [] <==> forall i :: 0 <= i < |v| ==> IsSpace(v[i]);
  }

  /** Sending back what was stored stores the same text again. */
  lemma SettingsActionStable(v: string)
    requires SettingsAction(v).Some?
    ensures SettingsAction(SettingsAction(v).value) == SettingsAction(v)
  {
    var t := SettingsAction(v).value;
    TrimLeftKeeps(t);
    TrimRightKeeps(t);
  }

  lemma TrimLeftKeeps(s: string)
    requires |s| > 0 && !IsSpace(s[0])
    ensures TrimLeft(s) == s
  {
  }

  lemma TrimRightKeeps(s: string)
    requires |s| > 0 && !IsSpace(s[|s| - 1])
    ensures TrimRight(s) == s
  {
  }

  /** The callback number setSettings is registered under. */
  const SettingsCallback: nat := 0

  /** RegisterPatternUpdaterString("Settings", 0, setSettings) */
  function SettingsUpdater(): Updater
  {
    Updater("Settings", 0, true, KString, SettingsCallback, NewPatternMatcher("Settings"))
  }

  /**
   * The updater catches "Settings" and every key below it, and hands the
   * key and the text, unparsed, to setSettings.
   */
  lemma SettingsUpdaterRoutes(key: string, value: string, codec: TimeCodec)
    ensures SettingsUpdater().pm.Accepts(key) <==> key == "Settings" || HasPrefix(key, "Settings.")
    ensures Update(SettingsUpdater(), key, value, codec) == Invoked(SettingsCallback, Some(key), TString(value))
  {
    assert WildcardIndex("Settings") == -1 by {
      forall k | 0 <= k < |"Settings"| ensures !WildcardAt("Settings", k) {
      }
      WildcardIndexNone("Settings");
    }
    SimplePatternIsSubtree("Settings", key);
  }

  /** A setting is held with this text. */
  ghost predicate Holds(store: StateStore, k: string, text: string)
    reads store, store.Objs(), store.Holders()
  {
    k in store.states && store.states[k].value.Some? && store.states[k].value.value.v == TString(text)
  }

  /** A key setSettings(k, v) leaves alone: any other key on a store, one outside k's subtree on a delete. */
  predicate Kept(v: string, key: string, k: string)
  {
    SettingsAction(v).None? ==> !InSubtree(key, k)
  }

  /** setSettings(k, v): store the trimmed text under `k`, or delete the subtree of `k`. */
  method SetSettings(store: StateStore, k: string, v: string) returns (err: Option<Error>)
    requires store.Valid() && store.Framed()
    modifies store, store.RecordRepr, store.HolderRepr
    ensures store.Valid() && err == None
    ensures SettingsAction(v).Some? ==>
      Holds(store, k, SettingsAction(v).value) && store.states.Keys == old(store.states.Keys) + {k}
    ensures SettingsAction(v).None? ==> (store.states == old(store.states) &&
      forall key :: key in store.states && InSubtree(key, k) ==> store.states[key].value.None?)
    ensures forall key :: key in old(store.states) && key != k && Kept(v, key, k) ==>
      key in store.states && store.states[key].value == old(store.states[key].value) &&
      (store.states[key].value.Some? ==> store.states[key].value.value.v == old(store.states[key].value.value.v))
  {
    var t := TrimSpace(v);
    if t == "" {
      err := store.Delete(k);
    } else {
      var _ := store.SetStateTyped(k, TString(t));
      err := None;
    }
  }

  /**
   * The store holds what `written` says on top of the keys it had before:
   * every written key holds its text, and no other key was added.
   */
  ghost predicate Reflects(store: StateStore, written: map<string, string>, keys0: set<string>)
    reads store, store.RecordRepr, store.HolderRepr
  {
    && store.Framed() && store.Valid()
    && (forall k :: k in written ==> Holds(store, k, written[k]))
    && store.states.Keys == keys0 + written.Keys
  }

  /** One SetStateString call of initSettings. */
  method WriteSetting(store: StateStore, k: string, text: string,
                      ghost written: map<string, string>, ghost keys0: set<string>)
    requires Reflects(store, written, keys0)
    modifies store, store.RecordRepr, store.HolderRepr
    ensures Reflects(store, written[k := text], keys0)
    ensures fresh(store.RecordRepr - old(store.RecordRepr)) && fresh(store.HolderRepr - old(store.HolderRepr))
  {
    var _ := store.SetStateTyped(k, TString(text));
    StillReflects(Step(store, k, text, written, keys0));
  }

  /** A write of initSettings, with what was written before it. */
  datatype Step = Step(store: StateStore, k: string, text: string, written: map<string, string>, keys0: set<string>)

  /** What SetStateTyped promises about a write keeps Reflects. */
  twostate lemma StillReflects(w: Step)
    requires old(Reflects(w.store, w.written, w.keys0))
    requires w.store.Valid() && w.store.Framed() && Holds(w.store, w.k, w.text)
    requires w.store.states.Keys == old(w.store.states.Keys) + {w.k}
    requires forall key :: key in old(w.store.states) && key != w.k ==>
      w.store.states[key] == old(w.store.states[key]) && w.store.states[key].value == old(w.store.states[key].value) &&
      (w.store.states[key].value.Some? ==> w.store.states[key].value.value.v == old(w.store.states[key].value.value.v))
    ensures Reflects(w.store, w.written[w.k := w.text], w.keys0)
  {
    forall key | key in w.written && key != w.k
      ensures Holds(w.store, key, w.written[key])
    {
      assert old(Holds(w.store, key, w.written[key]));
    }
  }

  /**
   * initSettings: write every default for both views, then register the
   * Settings updater.
   */
  method InitSettings(store: StateStore, registry: Registry)
    requires store.Valid() && store.Framed() && registry.Valid()
    modifies store, store.RecordRepr, store.HolderRepr, registry
    ensures Reflects(store, DefaultSettings(), old(store.states.Keys)) && registry.Valid()
    ensures registry.updaters == old(registry.updaters)["Settings" := SettingsUpdater()]
  {
    WriteDefaults(store);
    registry.Register("Settings", 0, true, KString, SettingsCallback);
  }


  /** initSettings' loops: every default under both views. */
  method WriteDefaults(store: StateStore)
    requires store.Valid() && store.Framed()
    modifies store, store.RecordRepr, store.HolderRepr
    ensures Reflects(store, DefaultSettings(), old(store.states.Keys))
  {
    ghost var before := store.states.Keys;
    var views, defaults := Views(), Defaults();
    ghost var n := 0;
    for i := 0 to |views|
      invariant n == i * 8 && Reflects(store, WrittenBy(n), before)
      invariant fresh(store.RecordRepr - old(store.RecordRepr)) && fresh(store.HolderRepr - old(store.HolderRepr))
    {
      for j := 0 to |defaults|
        invariant n == i * 8 + j && Reflects(store, WrittenBy(n), before)
        invariant fresh(store.RecordRepr - old(store.RecordRepr)) && fresh(store.HolderRepr - old(store.HolderRepr))
      {
        WriteStep(i, j, n);
        WriteSetting(store, SettingKey(views[i], defaults[j].name), defaults[j].value, WrittenBy(n), before);
        n := n + 1;
      }
    }
  }

  /** The (i, j) write of the loops is the (8i + j)-th write. */
  lemma WriteStep(i: nat, j: nat, n: nat)
    requires i < |Views()| && j < |Defaults()| && n == i * 8 + j
    ensures n < 16 && WrittenBy(n + 1) == WrittenBy(n)[SettingKey(Views()[i], Defaults()[j].name) := Defaults()[j].value]
  {
    Position(i, j, n);
    assert WriteAt(n) == (SettingKey(Views()[i], Defaults()[j].name), Defaults()[j].value);
  }

  lemma Position(i: nat, j: nat, n: nat)
    requires i < 2 && j < 8 && n == i * 8 + j
    ensures n < 16 && n / 8 == i && n % 8 == j
  {
  }
}
