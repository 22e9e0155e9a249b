/** The settings store the battle reads and writes presets through (sett()). Its code is
    not part of this model; the operations below state what the battle relies on: a
    preset is stored per (preset name, option category), an absent entry reads as empty,
    storing an entry lists the preset, and deleting a preset drops its name and entries. */
module SettingsStore {

  datatype Store = Store(presetList: seq<string>, hosting: map<(string, int), map<string, string>>)

  /** GetHostingPreset: the stored options of one category of a preset. */
  function GetHostingPreset(s: Store, name: string, category: int): map<string, string> {
    if (name, category) in s.hosting then s.hosting[(name, category)] else map[]
  }

  /** SetHostingPreset: store the options of one category, listing the preset if new. */
  function SetHostingPreset(s: Store, name: string, category: int, opts: map<string, string>): (r: Store)
    ensures GetHostingPreset(r, name, category) == opts
    ensures forall k :: k != (name, category) ==> (k in r.hosting <==> k in s.hosting)
    ensures forall k :: k in s.hosting && k != (name, category) ==> r.hosting[k] == s.hosting[k]
    ensures name in r.presetList
  {
    Store(if name in s.presetList then s.presetList else s.presetList + [name],
          s.hosting[(name, category) := opts])
  }

  function Without(list: seq<string>, name: string): (r: seq<string>)
    ensures forall n :: n in r <==> n in list && n != name
  {
    if list == [] then []
    else (if list[0] == name then [] else [list[0]]) + Without(list[1..], name)
  }

  /** DeletePreset: forget a preset's name and every category stored under it. */
  function DeletePreset(s: Store, name: string): (r: Store)
    ensures name !in r.presetList
    ensures forall c :: GetHostingPreset(r, name, c) == map[]
  {
    Store(Without(s.presetList, name), map k | k in s.hosting && k.0 != name :: s.hosting[k])
  }
}

/** The map and game archive index (LSL::usync()), reduced to the queries the battle makes.
    Its code is not part of this model: every query is an input function. */
module Unitsync {
  import opened Users

  /** A map as unitsync describes it: identity, start positions and size. */
  datatype MapInfo = MapInfo(name: string, hash: string, positions: seq<Position>, width: int, height: int)

  const NoMap := MapInfo("", "", [], 0, 0)

  /** A game (mod) as unitsync describes it. */
  datatype ModInfo = ModInfo(name: string, hash: string)

  const NoMod := ModInfo("", "")

  datatype Index = Index(
    /** MapExists(name, hash); an empty hash matches any hash. */
    mapExists: (string, string) -> bool,
    getMap: string -> MapInfo,
    /** ModExists(name, hash); an empty hash matches any hash. */
    modExists: (string, string) -> bool,
    getMod: string -> ModInfo,
    getSides: string -> seq<string>,
    /** CustomBattleOptions().loadOptions(category, name): whether the options loaded. */
    loadOptions: (int, string) -> bool)
}
