/** The key-binding options screen (pkg/scene/options.go): the named
    options with their GLFW key codes, the `options.txt` format (one line
    of `name=code` fields separated by `;`), and the save-on-mode-change
    rule of its Draw. Reading and writing the file is I/O; its text is a
    value. */
module Options {
  import opened Wrappers
  import opened GoInt
  import opened GoStrings

  /** GLFW key codes of the defaults. */
  const KeySpace: int := 32
  const KeyMinus: int := 45
  const Key0: int := 48
  const KeyEqual: int := 61
  const KeyA: int := 65
  const KeyD: int := 68
  const KeyE: int := 69
  const KeyK: int := 75
  const KeyM: int := 77
  const KeyS: int := 83
  const KeyW: int := 87
  const KeyLeftBracket: int := 91
  const KeyRightBracket: int := 93
  const KeyEnter: int := 257
  const KeyLeftShift: int := 340
  const KeyLeftControl: int := 341

  /** A key entry widget: the key it shows and whether it is hidden. */
  datatype Entry = Entry(key: int, hidden: bool)

  /** An option: its key, its entry (if it has one) and its label's hidden
      flag (if it has a label). */
  datatype Opt = Opt(key: int, entry: Option<Entry>, caption: Option<bool>)

  type OptionMap = map<string, Opt>

  /** NewOptions' defaults: name and key code. */
  const DefaultKeys: seq<(string, int)> := [
    ("Apex", KeyK), ("Mode", KeyM), ("PlanetL", KeyLeftBracket), ("PlanetR", KeyRightBracket),
    ("Text", KeyEnter),
    ("Slot1", Key0 + 1), ("Slot2", Key0 + 2), ("Slot3", Key0 + 3), ("Slot4", Key0 + 4),
    ("Slot5", Key0 + 5), ("Slot6", Key0 + 6), ("Slot7", Key0 + 7), ("Slot8", Key0 + 8),
    ("Slot9", Key0 + 9), ("Slot10", Key0), ("Slot11", KeyMinus), ("Slot12", KeyEqual),
    ("Forward", KeyW), ("Backward", KeyS), ("Left", KeyA), ("Right", KeyD),
    ("Up", KeySpace), ("Down", KeyLeftShift), ("Run", KeyLeftShift), ("FlySprint", KeyLeftControl),
    ("Inventory", KeyE), ("Build", 1), ("Destroy", 0)]

  /** The options that get an entry and a label on the screen. */
  const OnScreen: set<string> := {
    "Forward", "Backward", "Left", "Right", "Up", "Down", "Run", "FlySprint", "Inventory", "Build", "Destroy"}

  function DefaultMap(defaults: seq<(string, int)>): (m: OptionMap)
    ensures forall k :: k in m <==> exists i :: 0 <= i < |defaults| && defaults[i].0 == k
    ensures forall k :: k in m ==> m[k].entry.None? && m[k].caption.None?
    decreases |defaults|
  {
    if defaults == [] then map[]
    else
      var last := defaults[|defaults| - 1];
      var m := DefaultMap(defaults[..|defaults| - 1]);
      assert forall i :: 0 <= i < |defaults| - 1 ==> defaults[..|defaults| - 1][i] == defaults[i];
      m[last.0 := Opt(last.1, None, None)]
  }

  /** An option holds the key of its last default. */
  lemma {:induction false} DefaultOf(defaults: seq<(string, int)>, i: nat)
    requires i < |defaults|
    requires forall j :: i < j < |defaults| ==> defaults[j].0 != defaults[i].0
    ensures defaults[i].0 in DefaultMap(defaults)
    ensures DefaultMap(defaults)[defaults[i].0] == Opt(defaults[i].1, None, None)
    decreases |defaults|
  {
    var n := |defaults| - 1;
    var init := defaults[..n];
    assert DefaultMap(defaults) == DefaultMap(init)[defaults[n].0 := Opt(defaults[n].1, None, None)];
    if i < n {
      assert init[i] == defaults[i];
      assert forall j :: i < j < |init| ==> init[j] == defaults[j];
      DefaultOf(init, i);
    }
  }

  // ---------------------------------------------------------------------
  // load
  // ---------------------------------------------------------------------

  /** One `name=code` field. A field without `=` or with an empty code is
      skipped; a code that is not an integer panics, and so does a name
      that is not an option (the map yields a nil pointer). */
  function LoadField(o: OptionMap, h: string): (r: Outcome<OptionMap>)
    ensures r.Done? ==> r.value.Keys == o.Keys
  {
    var g := Split(h, '=');
    if |g| < 2 || g[1] == "" then Done(o)
    else
      match Atoi(g[1])
      case None => Panic("strconv.Atoi: invalid syntax")
      case Some(n) =>
        if g[0] !in o then Panic("invalid memory address or nil pointer dereference")
        else Done(o[g[0] := o[g[0]].(key := n)])
  }

  function LoadFields(o: OptionMap, fields: seq<string>): (r: Outcome<OptionMap>)
    ensures r.Done? ==> r.value.Keys == o.Keys
    decreases |fields|
  {
    if fields == [] then Done(o)
    else
      var o' :- LoadField(o, fields[0]);
      LoadFields(o', fields[1..])
  }

  /** load: only the first line of the file is read. */
  function Load(o: OptionMap, file: string): (r: Outcome<OptionMap>)
    ensures r.Done? ==> r.value.Keys == o.Keys
  {
    LoadFields(o, Split(Split(file, '\n')[0], ';'))
  }

  /** Options the file does not mention keep their keys, and nothing but
      keys changes. */
  lemma {:induction false} LoadFieldsKeepsOthers(o: OptionMap, fields: seq<string>, k: string)
    requires LoadFields(o, fields).Done? && k in o
    requires forall i :: 0 <= i < |fields| ==> Split(fields[i], '=')[0] != k
    ensures LoadFields(o, fields).value[k] == o[k]
    ensures forall n :: n in o ==> LoadFields(o, fields).value[n] == o[n].(key := LoadFields(o, fields).value[n].key)
    decreases |fields|
  {
    if fields != [] {
      var o' := LoadField(o, fields[0]).value;
      assert forall n :: n in o ==> o'[n] == o[n].(key := o'[n].key);
      LoadFieldsKeepsOthers(o', fields[1..], k);
    }
  }

  /** A field naming no option panics; one with an empty code, or with no
      `=` at all, is skipped. */
  lemma LoadFieldCases(o: OptionMap, name: string, n: int)
    requires '=' !in name && IsInt64(n)
    ensures name !in o ==> LoadField(o, FieldText(name, Itoa(n))).Panic?
    ensures name in o ==> LoadField(o, FieldText(name, Itoa(n))) == Done(o[name := o[name].(key := n)])
    ensures LoadField(o, FieldText(name, "")) == Done(o)
    ensures LoadField(o, name) == Done(o)
  {
    FieldSplit(name, Itoa(n));
    AtoiItoa(n);
    FieldSplit(name, "");
    SplitWithout(name, '=');
  }

  /** A code that is not a number panics, whatever the name. */
  lemma LoadBadCodePanics(o: OptionMap, name: string, code: string)
    requires '=' !in name && '=' !in code && code != "" && Atoi(code).None?
    ensures LoadField(o, FieldText(name, code)).Panic?
  {
    FieldSplit(name, code);
  }

  // ---------------------------------------------------------------------
  // save
  // ---------------------------------------------------------------------

  /** The keys shown on screen are copied into the options first. */
  function Sync(o: OptionMap): (r: OptionMap)
    ensures r.Keys == o.Keys
    ensures forall k :: k in o ==> r[k] == o[k].(key := if o[k].entry.Some? then o[k].entry.value.key else o[k].key)
  {
    map k | k in o :: if o[k].entry.Some? then o[k].(key := o[k].entry.value.key) else o[k]
  }

  /** `order` lists every option once (Go's map order is unspecified). */
  predicate Enumerates(o: OptionMap, order: seq<string>) {
    (forall i :: 0 <= i < |order| ==> order[i] in o)
    && (forall k :: k in o ==> k in order)
    && (forall i, j :: 0 <= i < j < |order| ==> order[i] != order[j])
  }

  /** One `name=code` field per option of `order`, in that order. A
      field of a plain name holds no `;`, so the `;`-joined text splits
      back into exactly these fields. */
  function SaveFields(o: OptionMap, order: seq<string>): (s: seq<string>)
    requires forall i :: 0 <= i < |order| ==> order[i] in o
    ensures |s| == |order|
    ensures forall i :: 0 <= i < |order| && Plain(order[i]) ==> ';' !in s[i] && '\n' !in s[i]
  {
    seq(|order|, i requires 0 <= i < |order| => FieldText(order[i], Itoa(o[order[i]].key)))
  }

  /** save: the synchronised options and the written text, `name=code`
      for every option in map order, joined by `;`. */
  function Save(o: OptionMap, order: seq<string>): (r: (OptionMap, string))
    requires Enumerates(o, order)
    ensures r.0 == Sync(o)
  {
    var synced := Sync(o);
    (synced, Join(SaveFields(synced, order), ';'))
  }

  /** A name the format can carry. */
  predicate Plain(s: string) {
    ';' !in s && '=' !in s && '\n' !in s
  }

  /** The options with the keys of `keys` for the names in `names`. */
  function Assigned(o: OptionMap, names: seq<string>, keys: OptionMap): OptionMap
    requires forall i :: 0 <= i < |names| ==> names[i] in keys
  {
    map k | k in o :: if k in names then o[k].(key := keys[k].key) else o[k]
  }

  lemma {:induction false} LoadSavedFields(o: OptionMap, names: seq<string>, keys: OptionMap)
    requires forall i :: 0 <= i < |names| ==> names[i] in o && names[i] in keys && Plain(names[i]) && IsInt64(keys[names[i]].key)
    requires forall i, j :: 0 <= i < j < |names| ==> names[i] != names[j]
    ensures LoadFields(o, SaveFields(keys, names)) == Done(Assigned(o, names, keys))
    decreases |names|
  {
    if names == [] {
      assert Assigned(o, names, keys) == o;
    } else {
      var n := names[0];
      var fields := SaveFields(keys, names);
      var o' := o[n := o[n].(key := keys[n].key)];
      SaveFieldsCons(keys, names);
      LoadSavedField(o, n, keys[n].key);
      LoadFieldsCons(o, fields);
      LoadSavedFields(o', names[1..], keys);
      AssignedStep(o, names, keys);
    }
  }

  /** The saved fields are the first name's field and the rest's. */
  lemma SaveFieldsCons(keys: OptionMap, names: seq<string>)
    requires names != [] && forall i :: 0 <= i < |names| ==> names[i] in keys
    ensures SaveFields(keys, names)[0] == FieldText(names[0], Itoa(keys[names[0]].key))
    ensures SaveFields(keys, names)[1..] == SaveFields(keys, names[1..])
  {
  }

  /** Loading a saved field sets that option's key. */
  lemma LoadSavedField(o: OptionMap, n: string, v: int)
    requires n in o && Plain(n) && IsInt64(v)
    ensures LoadField(o, FieldText(n, Itoa(v))) == Done(o[n := o[n].(key := v)])
  {
    FieldSplit(n, Itoa(v));
    AtoiItoa(v);
  }

  /** Loading fields is loading the first, then the rest. */
  lemma LoadFieldsCons(o: OptionMap, fields: seq<string>)
    requires fields != [] && LoadField(o, fields[0]).Done?
    ensures LoadFields(o, fields) == LoadFields(LoadField(o, fields[0]).value, fields[1..])
  {
  }

  lemma AssignedStep(o: OptionMap, names: seq<string>, keys: OptionMap)
    requires names != [] && names[0] in o
    requires forall i :: 0 <= i < |names| ==> names[i] in keys
    requires forall i, j :: 0 <= i < j < |names| ==> names[i] != names[j]
    ensures Assigned(o[names[0] := o[names[0]].(key := keys[names[0]].key)], names[1..], keys) == Assigned(o, names, keys)
  {
    var n := names[0];
    var o' := o[n := o[n].(key := keys[n].key)];
    forall k | k in o ensures Assigned(o', names[1..], keys)[k] == Assigned(o, names, keys)[k] {
      if k == n {
        assert k !in names[1..] by {
          forall i | 0 <= i < |names[1..]| ensures names[1..][i] != n {
            assert names[1..][i] == names[i + 1];
          }
        }
      } else {
        assert k in names <==> k in names[1..] by {
          if k in names {
            var i :| 0 <= i < |names| && names[i] == k;
            assert names[1..][i - 1] == k;
          }
        }
      }
    }
  }

  /** Text without a newline is one line, read field by field. */
  lemma LoadOneLine(o: OptionMap, text: string)
    requires '\n' !in text
    ensures Load(o, text) == LoadFields(o, Split(text, ';'))
  {
    SplitWithout(text, '\n');
  }

  /** Loading an empty file changes nothing. */
  lemma LoadEmpty(o: OptionMap)
    ensures Load(o, "") == Done(o)
  {
    SplitWithout("", '\n');
    SplitWithout("", ';');
    SplitWithout("", '=');
    assert LoadFields(o, [""]) == LoadFields(o, []);
  }

  /** The text save writes: fields free of `;` and newlines. */
  lemma SavedText(o: OptionMap, order: seq<string>)
    requires Enumerates(o, order)
    requires forall k :: k in o ==> Plain(k)
    ensures var fields := SaveFields(Sync(o), order);
            && (forall i :: 0 <= i < |fields| ==> ';' !in fields[i] && '\n' !in fields[i])
            && Save(o, order).1 == Join(fields, ';')
            && '\n' !in Save(o, order).1
  {
    var fields := SaveFields(Sync(o), order);
    forall i | 0 <= i < |fields| ensures ';' !in fields[i] && '\n' !in fields[i] {
      assert fields[i] == FieldText(order[i], Itoa(Sync(o)[order[i]].key));
    }
    JoinAvoids(fields, ';', '\n');
  }

  /** Loading what save wrote restores every option's key (the key as it
      was on screen), provided option names are free of `;`, `=` and
      newlines and keys are 64-bit ints. Only keys change. */
  lemma SaveLoadRoundTrip(o: OptionMap, order: seq<string>, target: OptionMap)
    requires Enumerates(o, order) && target.Keys == o.Keys
    requires forall k :: k in o ==> Plain(k) && IsInt64(Sync(o)[k].key)
    ensures Load(target, Save(o, order).1) == Done(map k | k in target :: target[k].(key := Sync(o)[k].key))
  {
    var synced := Sync(o);
    var fields := SaveFields(synced, order);
    var text := Save(o, order).1;
    assert Load(target, text) == LoadFields(target, Split(text, ';')) by {
      SavedText(o, order);
      LoadOneLine(target, text);
    }
    if order == [] {
      assert text == "" && target.Keys == {};
      LoadEmpty(target);
    } else {
      assert Split(text, ';') == fields by {
        SavedText(o, order);
        SplitJoin(fields, ';');
      }
      assert LoadFields(target, fields) == Done(Assigned(target, order, synced)) by {
        LoadSavedFields(target, order, synced);
      }
      AssignedEvery(target, order, synced);
    }
  }

  /** Assigning every option's key from `keys`. */
  lemma AssignedEvery(o: OptionMap, names: seq<string>, keys: OptionMap)
    requires forall i :: 0 <= i < |names| ==> names[i] in keys
    requires forall k :: k in o ==> k in names && k in keys
    ensures Assigned(o, names, keys) == map k | k in o :: o[k].(key := keys[k].key)
  {
  }

  // ---------------------------------------------------------------------
  // NewOptions and Draw
  // ---------------------------------------------------------------------

  /** Gives the on-screen options their entry (showing the loaded key) and
      label, both visible. */
  function AttachWidgets(o: OptionMap): (r: OptionMap)
    ensures r.Keys == o.Keys
    ensures forall k :: k in o ==> r[k].key == o[k].key
  {
    map k | k in o :: if k in OnScreen then o[k].(entry := Some(Entry(o[k].key, false)), caption := Some(false)) else o[k]
  }

  /** NewOptions: the defaults, overridden by the file, with the on-screen
      widgets attached. */
  function NewOptions(file: string): (r: Outcome<OptionMap>)
    ensures r.Done? ==> r.value.Keys == DefaultMap(DefaultKeys).Keys
  {
    var o :- Load(DefaultMap(DefaultKeys), file);
    Done(AttachWidgets(o))
  }

  /** Without an options file NewOptions yields the defaults. */
  lemma NewOptionsEmptyFile()
    ensures NewOptions("") == Done(AttachWidgets(DefaultMap(DefaultKeys)))
  {
    LoadEmpty(DefaultMap(DefaultKeys));
  }

  /** Some defaults: each option has its default key. */
  lemma DefaultExamples()
    ensures var d := DefaultMap(DefaultKeys);
            && "Apex" in d
            && "Forward" in d && d["Forward"].key == KeyW
            && "Slot10" in d && d["Slot10"].key == Key0
            && "Destroy" in d && d["Destroy"].key == 0
  {
    assert "Apex" in DefaultMap(DefaultKeys) by {
      assert DefaultKeys[0].0 == "Apex";
    }
    DefaultForward();
    DefaultSlot10();
    DefaultDestroy();
  }

  // One lemma per option: each keeps a single lookup in the defaults in
  // view.
  lemma DefaultForward() ensures "Forward" in DefaultMap(DefaultKeys) && DefaultMap(DefaultKeys)["Forward"].key == KeyW {
    DefaultOf(DefaultKeys, 17);
  }
  lemma DefaultSlot10() ensures "Slot10" in DefaultMap(DefaultKeys) && DefaultMap(DefaultKeys)["Slot10"].key == Key0 {
    DefaultOf(DefaultKeys, 14);
  }
  lemma DefaultDestroy() ensures "Destroy" in DefaultMap(DefaultKeys) && DefaultMap(DefaultKeys)["Destroy"].key == 0 {
    DefaultOf(DefaultKeys, 27);
  }

  /** Only the on-screen options get an entry, showing the option's key. */
  lemma AttachExamples(d: OptionMap)
    requires "Apex" in d && "Forward" in d && "Slot10" in d
    requires forall k :: k in d ==> d[k].entry.None? && d[k].caption.None?
    ensures var o := AttachWidgets(d);
            && o["Forward"].entry == Some(Entry(d["Forward"].key, false)) && o["Forward"].caption == Some(false)
            && o["Slot10"].entry.None? && o["Apex"].entry.None?
  {
    assert "Forward" in OnScreen;
    assert "Slot10" !in OnScreen && "Apex" !in OnScreen;
  }

  /** Without an options file the walking keys are W, the tenth slot is 0,
      and the forward key shows in its entry. */
  lemma NewOptionsDefaults()
    ensures NewOptions("").Done?
    ensures var o := NewOptions("").value;
            && "Forward" in o && o["Forward"].key == KeyW && o["Forward"].entry == Some(Entry(KeyW, false))
            && "Slot10" in o && o["Slot10"].key == Key0 && o["Slot10"].entry.None?
            && "Destroy" in o && o["Destroy"].key == 0
            && "Apex" in o && o["Apex"].entry.None?
  {
    NewOptionsEmptyFile();
    DefaultExamples();
    AttachExamples(DefaultMap(DefaultKeys));
  }

  /** Sets the hidden flag of an option's entry and label. */
  function Hide(opt: Opt, hideAll: bool): Opt {
    var entry := if opt.entry.Some? then Some(opt.entry.value.(hidden := hideAll)) else None;
    var caption := if opt.caption.Some? then Some(hideAll) else None;
    opt.(entry := entry, caption := caption)
  }

  /** Draw's effect on the options screen: when the player's mode differs
      from the last one seen, the options are saved (text written); every
      entry and label is hidden unless the mode is "Options". */
  function Draw(o: OptionMap, lastMode: string, mode: string, order: seq<string>): (r: (OptionMap, string, Option<string>))
    requires Enumerates(o, order)
    ensures r.1 == mode
    ensures r.2.Some? <==> lastMode != mode
    ensures r.0.Keys == o.Keys
    ensures forall k :: k in r.0 ==>
              && (r.0[k].entry.Some? ==> r.0[k].entry.value.hidden == (mode != "Options"))
              && (r.0[k].caption.Some? ==> r.0[k].caption.value == (mode != "Options"))
  {
    var saved := if lastMode != mode then Save(o, order).0 else o;
    var written := if lastMode != mode then Some(Save(o, order).1) else None;
    (HideAll(saved, mode != "Options"), mode, written)
  }

  /** Every entry and label hidden (or shown). */
  function HideAll(o: OptionMap, hideAll: bool): (r: OptionMap)
    ensures r.Keys == o.Keys
    ensures forall k :: k in r ==>
              && (r[k].entry.Some? ==> r[k].entry.value.hidden == hideAll)
              && (r[k].caption.Some? ==> r[k].caption.value == hideAll)
  {
    map k | k in o :: Hide(o[k], hideAll)
  }

  /** Draw saves once per mode change: drawing again in the same mode
      writes nothing. */
  lemma DrawSavesOncePerChange(o: OptionMap, lastMode: string, mode: string, order: seq<string>)
    requires Enumerates(o, order)
    ensures var r := Draw(o, lastMode, mode, order);
            Enumerates(r.0, order) && Draw(r.0, r.1, mode, order).2.None?
  {
  }
}
