/** IBattle: the state of one battle as the lobby keeps it (users and bots, team and ally
    occupancy, start rectangles, unit restrictions, ready/sync counters, the host's and the
    local map and game, hosting presets) and the operations that keep it consistent. */
module Battle {
  import opened Text
  import opened Users
  import Occupancy
  import StartRects
  import Allocators
  import Roster
  import Tdf
  import Presets
  import SettingsStore
  import Unitsync
  import ScriptRebuild

  datatype BattleType = Played | Replay | Savegame

  /** The host-info messages the battle asks the server layer to send (SendHostInfo). */
  datatype HostInfo = HiSpectators | HiMap | HiStartRects | HiRestrictions | HiSendAllOpts

  /** The battle options this model reads: founder, proxy host, spectator count, player
      limit and the locked flag; a default-constructed BattleOptions has them empty. */
  datatype BattleOptions = BattleOptions(founder: string, proxyHost: string, spectators: int,
                                         maxPlayers: int, locked: bool)

  const DefaultOptions := BattleOptions("", "", 0, 0, false)

  /** A map or game as the host announced it. */
  datatype Identity = Identity(name: string, hash: string)

  const NoIdentity := Identity("", "")

  // LSL::Enum::GameOption: the option categories, and the start position type that lets
  // players choose in game.
  const MapOption := 0
  const ModOption := 1
  const EngineOption := 2
  const PrivateOptions := 3
  const LastOption := 6
  const StartPosChoose := 2

  /** The host's identity accepts a local one: an empty or "0" hash and an empty name
      accept anything. */
  predicate Matches(host: Identity, name: string, hash: string) {
    (host.hash == "" || host.hash == "0" || host.hash == hash) && (host.name == "" || name == host.name)
  }

  /** LoadMap's state change: when the map is not loaded yet and the host named one that
      exists, the local map is fetched, and it counts as loaded once its options load. */
  function LoadedMap(index: Unitsync.Index, host: Identity, loaded: bool, local: Unitsync.MapInfo)
    : (r: (bool, Unitsync.MapInfo))
    ensures r.0 ==> loaded || index.loadOptions(MapOption, host.name)
    ensures r.1 != local ==> r.1 == index.getMap(host.name) && !loaded && index.mapExists(host.name, host.hash)
    ensures loaded ==> r == (loaded, local)
  {
    if !loaded && host.name != "" && index.mapExists(host.name, host.hash) then
      (index.loadOptions(MapOption, host.name), index.getMap(host.name))
    else (loaded, local)
  }

  /** LoadMod's state change, as LoadMap's (no test for an empty name). */
  function LoadedMod(index: Unitsync.Index, host: Identity, loaded: bool, local: Unitsync.ModInfo)
    : (r: (bool, Unitsync.ModInfo))
    ensures r.0 ==> loaded || index.loadOptions(ModOption, host.name)
    ensures r.1 != local ==> r.1 == index.getMod(host.name) && !loaded && index.modExists(host.name, host.hash)
    ensures loaded ==> r == (loaded, local)
  {
    if !loaded && index.modExists(host.name, host.hash) then
      (index.loadOptions(ModOption, host.name), index.getMod(host.name))
    else (loaded, local)
  }

  /** Loading twice is loading once: a second attempt repeats the first one's outcome. */
  lemma LoadedMapIdempotent(index: Unitsync.Index, host: Identity, loaded: bool, local: Unitsync.MapInfo)
    ensures var r := LoadedMap(index, host, loaded, local);
            LoadedMap(index, host, r.0, r.1) == r
  {
  }

  lemma LoadedModIdempotent(index: Unitsync.Index, host: Identity, loaded: bool, local: Unitsync.ModInfo)
    ensures var r := LoadedMod(index, host, loaded, local);
            LoadedMod(index, host, r.0, r.1) == r
  {
  }

  /** The ready-up map after a status update: a human player who is not both ready and
      synced waits in it from the first time seen, anybody else leaves it; bots do not
      touch it. */
  function ReadyUpAfter(waiting: map<string, int>, nick: string, s: BattleStatus, now: int)
    : (r: map<string, int>)
    ensures IsBot(s) ==> r == waiting
    ensures !IsBot(s) ==> (nick in r <==> !s.spectator && !(s.ready && Synced(s)))
    ensures nick in r && nick in waiting ==> r[nick] == waiting[nick]
    ensures nick in r && nick !in waiting ==> r[nick] == now
    ensures forall n :: n != nick ==> (n in r <==> n in waiting) && (n in r ==> r[n] == waiting[n])
  {
    if IsBot(s) then waiting
    else if (s.ready && Synced(s)) || s.spectator then waiting - {nick}
    else if nick in waiting then waiting
    else waiting[nick := now]
  }

  /** n copies of one message. */
  function Repeat(h: HostInfo, n: nat): (r: seq<HostInfo>)
    ensures |r| == n && forall i :: 0 <= i < n ==> r[i] == h
  {
    if n == 0 then [] else Repeat(h, n - 1) + [h]
  }

  /** The options of one category (CustomBattleOptions), empty when none are set. */
  function Category(options: map<int, map<string, string>>, c: int): map<string, string> {
    if c in options then options[c] else map[]
  }

  /** The rectangles after RemoveStartRect on each of the allies below n whose rectangle
      IsOk: those are marked for deletion, the others are left as they are. */
  function MarkedBelow(rects: StartRects.Rects, n: int): map<u32, StartRects.StartRect> {
    map k | k in rects :: if k < n && StartRects.IsOk(rects[k]) then rects[k].(toDelete := true) else rects[k]
  }

  /** Marking every rectangle up to the last one leaves none in use, changes no
      coordinates or other flags, and keeps every entry. */
  lemma MarkedAllNoneOk(rects: StartRects.Rects)
    requires StartRects.Valid(rects)
    ensures var r := MarkedBelow(rects, StartRects.LastIdx(rects) as int + 1);
      r.Keys == rects.Keys && StartRects.Valid(r)
      && (forall a: u32 :: !StartRects.IsOk(StartRects.Get(r, a)))
      && (forall a :: a in r ==> r[a].(toDelete := rects[a].toDelete) == rects[a])
  {
    var last := StartRects.LastIdx(rects);
    var r := MarkedBelow(rects, last as int + 1);
    forall a: u32 ensures !StartRects.IsOk(StartRects.Get(r, a)) {
      if a in rects {
        assert a <= last;
      }
    }
  }

  /** One more step of LoadOptionsPreset's marking loop: the rectangle of ally j is
      marked when it is in use, and left alone otherwise. */
  lemma MarkStep(r0: StartRects.Rects, j: u32)
    ensures var m := MarkedBelow(r0, j as int);
      MarkedBelow(r0, j as int + 1)
        == if StartRects.IsOk(StartRects.Get(m, j)) then StartRects.MarkRemoved(m, j) else m
  {
    var m := MarkedBelow(r0, j as int);
    if j in r0 {
      assert m[j] == r0[j];
    }
  }

  /** A list in which me, if listed, plays (OnSelfLeftBattle resets that flag). */
  function ResetMe(us: seq<User>, me: string): (r: seq<User>)
    ensures |r| == |us| && Nicks(r) == Nicks(us)
    ensures UniqueNicks(us) ==> UniqueNicks(r)
    ensures InNickOrder(us) ==> InNickOrder(r)
  {
    if me in Nicks(us) then UpdateStatus(us, me, StatusOf(us, me).(spectator := false)) else us
  }

  /** Storing the categories cs of a preset in order, category c holding cs[c]. */
  function StoreCategories(s: SettingsStore.Store, preset: string, cs: seq<map<string, string>>)
    : SettingsStore.Store
  {
    if cs == [] then s
    else SettingsStore.SetHostingPreset(StoreCategories(s, preset, cs[..|cs| - 1]), preset, |cs| - 1, cs[|cs| - 1])
  }

  /** Storing one more category. */
  lemma StoreCategoriesSnoc(s: SettingsStore.Store, preset: string, cs: seq<map<string, string>>, i: nat)
    requires i < |cs|
    ensures StoreCategories(s, preset, cs[..i + 1])
         == SettingsStore.SetHostingPreset(StoreCategories(s, preset, cs[..i]), preset, i, cs[i])
  {
    assert cs[..i + 1][..i] == cs[..i];
  }

  /** Every stored category reads back as stored, other presets' entries are untouched,
      and the preset is listed once anything was stored. */
  lemma {:induction false} StoreCategoriesReadBack(s: SettingsStore.Store, preset: string,
                                                   cs: seq<map<string, string>>)
    ensures var r := StoreCategories(s, preset, cs);
      (forall c :: 0 <= c < |cs| ==> SettingsStore.GetHostingPreset(r, preset, c) == cs[c])
      && (forall n, c :: n != preset ==> SettingsStore.GetHostingPreset(r, n, c) == SettingsStore.GetHostingPreset(s, n, c))
      && (cs != [] ==> preset in r.presetList)
  {
    if cs != [] {
      StoreCategoriesReadBack(s, preset, cs[..|cs| - 1]);
      var prev := StoreCategories(s, preset, cs[..|cs| - 1]);
      var r := StoreCategories(s, preset, cs);
      forall c | 0 <= c < |cs| ensures SettingsStore.GetHostingPreset(r, preset, c) == cs[c] {
        if c < |cs| - 1 {
          assert cs[..|cs| - 1][c] == cs[c];
          assert SettingsStore.GetHostingPreset(r, preset, c) == SettingsStore.GetHostingPreset(prev, preset, c);
        }
      }
      forall n, c | n != preset
        ensures SettingsStore.GetHostingPreset(r, n, c) == SettingsStore.GetHostingPreset(s, n, c)
      {
        assert SettingsStore.GetHostingPreset(r, n, c) == SettingsStore.GetHostingPreset(prev, n, c);
      }
    }
  }

  /** Storing at least one category lists the preset once, at the end when it is new. */
  lemma {:induction false} StoreCategoriesList(s: SettingsStore.Store, preset: string, cs: seq<map<string, string>>)
    requires cs != []
    ensures StoreCategories(s, preset, cs).presetList
         == if preset in s.presetList then s.presetList else s.presetList + [preset]
  {
    if |cs| > 1 {
      StoreCategoriesList(s, preset, cs[..|cs| - 1]);
    }
  }

  /** Whether start positions are chosen in game: the engine option "startpostype",
      read as a number (`LSL::Util::FromString<long>`, here by ParseLong), is ST_Choose. */
  predicate ChoosesStartPositions(options: map<int, map<string, string>>) {
    ParseLong(Presets.Lookup(Category(options, EngineOption), "startpostype")) == StartPosChoose
  }

  /** The categories SaveOptionsPreset stores, in order: every option category as it is,
      except the private one, which holds the host map, the rectangles and restrictions. */
  function SavedCategories(options: map<int, map<string, string>>, hostMapName: string,
                           rects: StartRects.Rects, restricted: map<string, i32>): (cs: seq<map<string, string>>)
    ensures |cs| == LastOption
    ensures forall c :: 0 <= c < LastOption && c != PrivateOptions ==> cs[c] == Category(options, c)
    ensures cs[PrivateOptions]
         == Presets.PrivatePreset(hostMapName, rects, restricted, ChoosesStartPositions(options))
  {
    [Category(options, 0), Category(options, 1), Category(options, 2),
     Presets.PrivatePreset(hostMapName, rects, restricted, ChoosesStartPositions(options)),
     Category(options, 4), Category(options, 5)]
  }

  /** The options once the categories below n of a stored preset are loaded: each
      category the battle has, except the private one, takes the stored values of the
      options it defines. */
  function LoadedOptions(options: map<int, map<string, string>>, store: SettingsStore.Store, preset: string, n: nat)
    : (r: map<int, map<string, string>>)
    ensures r.Keys == options.Keys
  {
    if n == 0 then options
    else
      var prev := LoadedOptions(options, store, preset, n - 1);
      var c := n - 1;
      if c == PrivateOptions || c !in prev then prev
      else prev[c := Presets.Applied(prev[c], SettingsStore.GetHostingPreset(store, preset, c))]
  }

  /** SetLocalMap's state change: a named map that differs from the local one replaces it
      and counts as loaded. */
  function LocalMapSet(index: Unitsync.Index, name: string, loaded: bool, local: Unitsync.MapInfo)
    : (r: (bool, Unitsync.MapInfo))
    ensures r != (loaded, local) ==> r == (true, index.getMap(name)) && name != ""
  {
    var m := index.getMap(name);
    if name != "" && (m.name != local.name || m.hash != local.hash) then (true, m) else (loaded, local)
  }

  /** What loading the private category o of a preset yields. */
  datatype PrivateLoad = PrivateLoad(
    /** The settings store: the map name is blanked when the map is missing and not to be fetched. */
    store: SettingsStore.Store,
    /** Whether the map counts as loaded, and the local map. */
    local: (bool, Unitsync.MapInfo),
    /** Whether the map was set and announced. */
    mapSent: bool,
    rects: StartRects.Rects,
    restricted: map<string, i32>)

  /** LoadOptionsPreset on the private category o of preset p: the stored map is set when
      it exists (or blanked in the store when it is missing and the user declines to
      fetch it); every rectangle in use is marked for removal; the stored rectangles are
      re-added; the restrictions are replaced by the stored ones. */
  function LoadPrivate(o: map<string, string>, p: string, store: SettingsStore.Store, index: Unitsync.Index,
                       download: bool, rects: StartRects.Rects, loaded: bool, local: Unitsync.MapInfo)
    : PrivateLoad
  {
    var mapName := Presets.Lookup(o, "mapname");
    var found := mapName != "" && index.mapExists(mapName, "");
    var marked := MarkedBelow(rects, StartRects.LastIdx(rects) as int + 1);
    PrivateLoad(
      if mapName != "" && !found && !download
      then SettingsStore.SetHostingPreset(store, p, PrivateOptions, o["mapname" := ""]) else store,
      if found then LocalMapSet(index, mapName, loaded, local) else (loaded, local),
      found,
      Presets.LoadRects(marked, o, U32(ParseLong(Presets.Lookup(o, "numrects")))),
      Presets.DecodeRestrictions(Presets.Lookup(o, "restrictions")))
  }

  /** Loading the private category leaves the store's other categories of the preset as
      they were. */
  lemma PrivateLoadKeepsOthers(o: map<string, string>, p: string, store: SettingsStore.Store, index: Unitsync.Index,
                               download: bool, rects: StartRects.Rects, loaded: bool, local: Unitsync.MapInfo)
    ensures var stored := LoadPrivate(o, p, store, index, download, rects, loaded, local).store;
      forall c :: c != PrivateOptions ==>
        SettingsStore.GetHostingPreset(stored, p, c) == SettingsStore.GetHostingPreset(store, p, c)
  {
  }

  /** One step of LoadedSavedOptions: loading category n - 1, stored as the options have
      it, onto options that are unchanged so far leaves them unchanged. */
  lemma LoadedSavedStep(options: map<int, map<string, string>>, store: SettingsStore.Store,
                        preset: string, n: nat)
    requires n > 0 && LoadedOptions(options, store, preset, n - 1) == options
    requires n - 1 != PrivateOptions && n - 1 in options ==>
      SettingsStore.GetHostingPreset(store, preset, n - 1) == options[n - 1]
    ensures LoadedOptions(options, store, preset, n) == options
  {
    var c := n - 1;
    if c != PrivateOptions && c in options {
      Presets.AppliedSelf(options[c]);
      assert options[c := options[c]] == options;
    }
  }

  /** Loading a category saved from the same options changes none of them. */
  lemma {:induction false} LoadedSavedOptions(options: map<int, map<string, string>>, store: SettingsStore.Store,
                                              preset: string, n: nat)
    requires n <= LastOption
    requires forall c :: 0 <= c < n && c != PrivateOptions ==>
      SettingsStore.GetHostingPreset(store, preset, c) == Category(options, c)
    ensures LoadedOptions(options, store, preset, n) == options
  {
    if n > 0 {
      LoadedSavedOptions(options, store, preset, n - 1);
      LoadedSavedStep(options, store, preset, n);
    }
  }

  /** The name a preset is saved under is found again by the name it was saved by. */
  lemma SavedPresetFound(store: SettingsStore.Store, name: string, lower: char -> char,
                         cs: seq<map<string, string>>)
    requires name != "" && cs != []
    ensures var p := Presets.SaveName(store.presetList, name, lower);
      Presets.FixPresetName(StoreCategories(store, p, cs).presetList, name, lower) == p
  {
    var p := Presets.SaveName(store.presetList, name, lower);
    StoreCategoriesList(store, p, cs);
    Presets.SavedNameFound(store.presetList, name, lower);
  }

  /** Loading the option categories of a preset saved from the same options changes none
      of them. */
  lemma SavedOptionsLoaded(store: SettingsStore.Store, p: string, options: map<int, map<string, string>>,
                           hostMapName: string, rects: StartRects.Rects, restricted: map<string, i32>)
    ensures var saved := StoreCategories(store, p, SavedCategories(options, hostMapName, rects, restricted));
      LoadedOptions(options, saved, p, LastOption) == options
  {
    var cs := SavedCategories(options, hostMapName, rects, restricted);
    var saved := StoreCategories(store, p, cs);
    StoreCategoriesReadBack(store, p, cs);
    LoadedSavedOptions(options, saved, p, LastOption);
  }

  /** The private category of a saved preset reads back as it was saved. */
  lemma SavedPrivateRead(store: SettingsStore.Store, p: string, options: map<int, map<string, string>>,
                         hostMapName: string, rects: StartRects.Rects, restricted: map<string, i32>)
    ensures var saved := StoreCategories(store, p, SavedCategories(options, hostMapName, rects, restricted));
      SettingsStore.GetHostingPreset(saved, p, PrivateOptions)
        == Presets.PrivatePreset(hostMapName, rects, restricted, ChoosesStartPositions(options))
  {
    StoreCategoriesReadBack(store, p, SavedCategories(options, hostMapName, rects, restricted));
  }

  /** Saving a preset and loading it again by the same (non-empty) name finds it, leaves
      every option category as it was, gives back the unit restrictions, and, when start
      positions are chosen in game, puts every rectangle that was in use back in place,
      pending addition. Unit names must not hold a tab (the separator of the stored
      list), and no rectangle may sit at the largest unsigned ally (the save loop would
      not end). */
  lemma PresetRoundTrip(store: SettingsStore.Store, name: string, lower: char -> char,
                        options: map<int, map<string, string>>,
                        hostMapName: string, rects: StartRects.Rects, restricted: map<string, i32>,
                        index: Unitsync.Index, download: bool, loaded: bool, local: Unitsync.MapInfo)
    requires name != "" && Presets.NoTabNames(restricted)
    requires StartRects.Valid(rects) && 0xFFFF_FFFF !in rects
    ensures var p := Presets.SaveName(store.presetList, name, lower);
      var saved := StoreCategories(store, p, SavedCategories(options, hostMapName, rects, restricted));
      var o := SettingsStore.GetHostingPreset(saved, p, PrivateOptions);
      var pl := LoadPrivate(o, p, saved, index, download, rects, loaded, local);
      Presets.FixPresetName(saved.presetList, name, lower) == p
      && LoadedOptions(options, saved, p, LastOption) == options
      && pl.restricted == restricted
      && (ChoosesStartPositions(options) ==>
            forall a: u32 :: StartRects.IsOk(StartRects.Get(rects, a)) ==>
              StartRects.Get(pl.rects, a) == Presets.Restored(StartRects.Get(rects, a)))
  {
    var p := Presets.SaveName(store.presetList, name, lower);
    var cs := SavedCategories(options, hostMapName, rects, restricted);
    SavedPresetFound(store, name, lower, cs);
    SavedOptionsLoaded(store, p, options, hostMapName, rects, restricted);
    SavedPrivateRead(store, p, options, hostMapName, rects, restricted);
    var saved := StoreCategories(store, p, cs);
    var o := SettingsStore.GetHostingPreset(saved, p, PrivateOptions);
    var choose := ChoosesStartPositions(options);
    assert Presets.Lookup(o, "restrictions") == Presets.EncodeRestrictions(restricted);
    Presets.RestrictionsRoundTrip(restricted);
    if choose {
      var marked := MarkedBelow(rects, StartRects.LastIdx(rects) as int + 1);
      Presets.RectsRoundTrip(hostMapName, rects, restricted, o, marked);
    }
  }

  /** OnSelfLeftBattle's list after looking at the first k of the original users: the
      non-bots among them followed by the users not yet looked at. Looking at one more
      either keeps it (a non-bot) or splices it out (a bot). */
  lemma LookAt(users: seq<User>, orig: seq<User>, k: nat, j: nat)
    requires k <= |orig| && users == NonBots(orig[..k]) + orig[k..] && j == |NonBots(orig[..k])| && j < |users|
    ensures k < |orig| && users[j] == orig[k]
    ensures !IsBot(orig[k].status) ==>
      users == NonBots(orig[..k + 1]) + orig[k + 1..] && j + 1 == |NonBots(orig[..k + 1])|
    ensures IsBot(orig[k].status) ==>
      users[..j] + users[j + 1..] == NonBots(orig[..k + 1]) + orig[k + 1..] && j == |NonBots(orig[..k + 1])|
  {
    var kept := NonBots(orig[..k]);
    SpliceAt(kept, orig[k..]);
    assert orig[k..][0] == orig[k] && orig[k..][1..] == orig[k + 1..];
    BotsStep(orig, k);
  }

  /** OnSelfLeftBattle's loop ends once every original user has been looked at. */
  lemma LoopDone(users: seq<User>, orig: seq<User>, k: nat, j: nat)
    requires k <= |orig| && users == NonBots(orig[..k]) + orig[k..] && j == |NonBots(orig[..k])| && j >= |users|
    ensures orig[..k] == orig
  {
  }

  /** The bots, options and events of OnSelfLeftBattle's loop after one more user:
      unchanged for a non-bot, and for a bot what removing it leaves. */
  lemma CountStep(bots: set<string>, opts: BattleOptions, events: seq<HostInfo>, orig: seq<User>,
                  bots0: set<string>, opts0: BattleOptions, events0: seq<HostInfo>, founder: bool, k: nat)
    requires k < |orig|
    requires var botSpectators := if founder then SpectatorBots(orig[..k]) else 0;
      bots == bots0 - BotNicks(orig[..k])
      && opts == opts0.(spectators := opts0.spectators - botSpectators)
      && events == events0 + Repeat(HiSpectators, botSpectators)
    ensures var botSpectators := if founder then SpectatorBots(orig[..k + 1]) else 0;
      var leaving := founder && orig[k].status.spectator;
      var bots', opts', events' :=
        if IsBot(orig[k].status) then bots - {orig[k].nick} else bots,
        if IsBot(orig[k].status) then opts.(spectators := opts.spectators - (if leaving then 1 else 0)) else opts,
        if IsBot(orig[k].status) then events + (if leaving then [HiSpectators] else []) else events;
      bots' == bots0 - BotNicks(orig[..k + 1])
      && opts' == opts0.(spectators := opts0.spectators - botSpectators)
      && events' == events0 + Repeat(HiSpectators, botSpectators)
  {
    BotsStep(orig, k);
  }

  /** A user's status once reset on joining: playing, not ready, sync unknown. */
  function Joining(s: BattleStatus): (r: BattleStatus)
    ensures !r.spectator && !r.ready && !Synced(r) && IsBot(r) == IsBot(s)
  {
    s.(spectator := false, ready := false, sync := SYNC_UNKNOWN)
  }

  /** The team, ally and colour a joining user ends up with: when assigned, the lowest
      team and ally nobody on the list holds (not counting me when the user is me) and
      the free colour; otherwise the ones it came with. Nothing else changes. */
  ghost predicate SlotsAssigned(listed: seq<User>, me: string, nick: string, reset: BattleStatus,
                                s: BattleStatus, freeColour: Colour, assign: bool)
  {
    s.(team := reset.team, ally := reset.ally, colour := reset.colour) == reset
    && (assign ==>
          s.colour == freeColour
          && Allocators.IsLowestFree(listed, me, nick == me, false, s.team)
          && Allocators.IsLowestFree(listed, me, nick == me, true, s.ally))
    && (!assign ==> s == reset)
  }

  /** The start position a joining user ends up with: when placed, the map is loaded and
      the position is the map's first free one; otherwise nothing changes. */
  ghost predicate PositionAssigned(index: Unitsync.Index, host: Identity, loaded0: bool, local0: Unitsync.MapInfo,
                                   loaded: bool, local: Unitsync.MapInfo, listed: seq<User>,
                                   s0: BattleStatus, s: BattleStatus, placed: bool)
  {
    s.(pos := s0.pos) == s0
    && (loaded, local) == (if placed then LoadedMap(index, host, loaded0, local0) else (loaded0, local0))
    && (placed ==> Allocators.IsFreePosition(local.positions, listed, local.width, local.height, s.pos))
    && (!placed ==> s == s0)
  }

  /** A free position found on the loaded map is a placement as OnUserAdded makes it. */
  lemma PlacedFree(index: Unitsync.Index, host: Identity, loaded0: bool, local0: Unitsync.MapInfo,
                   loaded: bool, local: Unitsync.MapInfo, listed: seq<User>, s0: BattleStatus, pos: Position)
    requires (loaded, local) == LoadedMap(index, host, loaded0, local0)
    requires Allocators.IsFreePosition(local.positions, listed, local.width, local.height, pos)
    ensures PositionAssigned(index, host, loaded0, local0, loaded, local, listed, s0, s0.(pos := pos), true)
  {
  }

  /** What GetBattleFromScript may change in a battle: the host's game and map, the
      options, and the users, occupancy, caches, rectangles and counters (with the player
      loop's spectator count at zero). */
  datatype ScriptRebuildState = ScriptRebuildState(hostMod: Identity, modLoaded: bool, hostMap: Identity,
                                                   mapLoaded: bool, opts: BattleOptions,
                                                   rebuilt: ScriptRebuild.Rebuilt)

  /** What GetBattleFromScript leaves once it has read the GAME section g: the host's
      game and its hash; when the map name is empty, nothing else changed (the rebuild
      was aborted); otherwise the host's map, the users, occupancy, caches, rectangles
      and counters as ScriptFold gives them after the PlayerCount player sections, and
      fresh options holding the spectators and the number of player sections. */
  ghost predicate GameReadInto(before: ScriptRebuildState, after: ScriptRebuildState, g: Tdf.Node, loadMapMod: bool,
                               hashFn: string -> string, index: Unitsync.Index, colourOf: string -> Colour,
                               completed: bool)
  {
    var modHash := Tdf.GetString(g, "ModHash", "");
    var mod := Identity(Tdf.GetString(g, "GameType", ""), if modHash == "" then "" else hashFn(modHash));
    var host := Identity(Tdf.GetString(g, "MapName", ""), Tdf.GetString(g, "MapHash", ""));
    after.hostMod == mod && after.modLoaded == (before.modLoaded && before.hostMod == mod)
    && (completed <==> host.name != "")
    && (!completed ==> after == before.(hostMod := mod, modLoaded := after.modLoaded))
    && (completed ==>
          var sides := if loadMapMod then index.getSides(mod.name) else [];
          var n := ScriptRebuild.PlayerCount(g);
          after.hostMap == host && after.mapLoaded == (before.mapLoaded && before.hostMap == host)
          && after.rebuilt.(spectators := after.opts.spectators)
             == ScriptRebuild.ScriptFold(before.rebuilt, g, n, sides, colourOf)
          && after.opts == DefaultOptions.(spectators := after.opts.spectators, maxPlayers := n))
  }

  /** The host part of reading the GAME section g: the host's game and its hash, and
      the map when the section names one (`completed`); nothing else changes. */
  ghost predicate HostRead(before: ScriptRebuildState, after: ScriptRebuildState, g: Tdf.Node,
                           hashFn: string -> string, completed: bool)
  {
    var modHash := Tdf.GetString(g, "ModHash", "");
    var mod := Identity(Tdf.GetString(g, "GameType", ""), if modHash == "" then "" else hashFn(modHash));
    var host := Identity(Tdf.GetString(g, "MapName", ""), Tdf.GetString(g, "MapHash", ""));
    after.hostMod == mod && after.modLoaded == (before.modLoaded && before.hostMod == mod)
    && (completed <==> host.name != "")
    && (completed ==> after.hostMap == host && after.mapLoaded == (before.mapLoaded && before.hostMap == host))
    && (!completed ==> after.hostMap == before.hostMap && after.mapLoaded == before.mapLoaded)
    && after.opts == before.opts && after.rebuilt == before.rebuilt
  }

  /** Reading the host, then (when the map is named) the players, is GameReadInto. */
  lemma GameReadFromParts(before: ScriptRebuildState, mid: ScriptRebuildState, after: ScriptRebuildState,
                          g: Tdf.Node, loadMapMod: bool, hashFn: string -> string, index: Unitsync.Index,
                          colourOf: string -> Colour, completed: bool)
    requires HostRead(before, mid, g, hashFn, completed)
    requires !completed ==> after == mid
    requires completed ==>
      var sides := if loadMapMod then index.getSides(Tdf.GetString(g, "GameType", "")) else [];
      var n := ScriptRebuild.PlayerCount(g);
      after.hostMod == mid.hostMod && after.modLoaded == mid.modLoaded
      && after.hostMap == mid.hostMap && after.mapLoaded == mid.mapLoaded
      && after.rebuilt.(spectators := after.opts.spectators) == ScriptRebuild.ScriptFold(mid.rebuilt, g, n, sides, colourOf)
      && after.opts == DefaultOptions.(spectators := after.opts.spectators, maxPlayers := n)
    ensures GameReadInto(before, after, g, loadMapMod, hashFn, index, colourOf, completed)
  {
  }

  /** What GetBattleFromScript leaves for a script whose tree is `root`: without a GAME
      section, fresh options and nothing else changed; with one, GameReadInto. */
  ghost predicate ScriptRead(before: ScriptRebuildState, after: ScriptRebuildState, root: Tdf.Node, loadMapMod: bool,
                             hashFn: string -> string, index: Unitsync.Index, colourOf: string -> Colour,
                             completed: bool)
  {
    var game := Tdf.Find(root, "GAME");
    (game.None? ==> completed && after == before.(opts := DefaultOptions))
    && (game.Some? ==> GameReadInto(before, after, game.value, loadMapMod, hashFn, index, colourOf, completed))
  }

  class IBattle {
    var users: seq<User>
    /** The nicks of the bots (m_internal_bot_list). */
    var bots: set<string>
    /** Users created from a demo script (m_internal_user_list). */
    var demoUsers: map<string, User>
    /** The nick of the local user (GetMe()). */
    const me: string
    var opts: BattleOptions
    var generatingScript: bool
    var isSelfIn: bool
    var inGame: bool
    var startTime: int
    var battleType: BattleType
    var teamsSizes: Occupancy.Sizes
    var allySizes: Occupancy.Sizes
    var rects: StartRects.Rects
    var restricted: map<string, i32>
    var playersReady: int
    var playersSync: int
    var playersOk: int
    /** Since when each human player has not been ready (m_ready_up_map). */
    var readyUp: map<string, int>
    var hostMap: Identity
    var hostMod: Identity
    var localMap: Unitsync.MapInfo
    var localMod: Unitsync.ModInfo
    var mapLoaded: bool
    var modLoaded: bool
    var previousLocalModName: string
    /** The custom battle options by category (CustomBattleOptions()). */
    var options: map<int, map<string, string>>
    var preset: string
    /** The host-info messages sent, in order. */
    var events: seq<HostInfo>
    /** The start script (GetScript()) as bytes. */
    var script: seq<bv8>
    var playbackPath: string
    var engineName: string
    var engineVersion: string
    var parsedTeams: map<int, ScriptRebuild.TeamInfo>
    var parsedAllies: map<int, ScriptRebuild.AllyInfo>

    ghost predicate Valid()
      reads this`teamsSizes, this`allySizes, this`rects, this`users
    {
      Occupancy.Valid(teamsSizes) && Occupancy.Valid(allySizes) && StartRects.Valid(rects)
      && UniqueNicks(users) && InNickOrder(users)
    }

    constructor (me: string)
      ensures this.me == me && Valid()
      ensures users == [] && bots == {} && demoUsers == map[] && opts == DefaultOptions
      ensures !generatingScript && !isSelfIn && !inGame && startTime == 0 && battleType == Played
      ensures teamsSizes == map[] && allySizes == map[] && rects == map[] && restricted == map[]
      ensures playersReady == 0 && playersSync == 0 && playersOk == 0 && readyUp == map[]
      ensures hostMap == NoIdentity && hostMod == NoIdentity && localMap == Unitsync.NoMap && localMod == Unitsync.NoMod
      ensures !mapLoaded && !modLoaded && previousLocalModName == ""
      ensures options == map[] && preset == "" && events == [] && script == [] && playbackPath == ""
      ensures engineName == "" && engineVersion == "" && parsedTeams == map[] && parsedAllies == map[]
    {
      this.me := me;
      users := [];
      bots := {};
      demoUsers := map[];
      opts := DefaultOptions;
      generatingScript := false;
      isSelfIn := false;
      inGame := false;
      startTime := 0;
      battleType := Played;
      teamsSizes := map[];
      allySizes := map[];
      rects := map[];
      restricted := map[];
      playersReady := 0;
      playersSync := 0;
      playersOk := 0;
      readyUp := map[];
      hostMap := NoIdentity;
      hostMod := NoIdentity;
      localMap := Unitsync.NoMap;
      localMod := Unitsync.NoMod;
      mapLoaded := false;
      modLoaded := false;
      previousLocalModName := "";
      options := map[];
      preset := "";
      events := [];
      script := [];
      playbackPath := "";
      engineName := "";
      engineVersion := "";
      parsedTeams := map[];
      parsedAllies := map[];
    }

    predicate IsProxy()
      reads this`opts
    {
      opts.proxyHost != ""
    }

    /** The local user hosts: it founded the battle, or it hosts through a proxy and is
        not generating a script. */
    predicate IsFounderMe()
      reads this`opts, this`generatingScript
    {
      opts.founder == me || (IsProxy() && !generatingScript)
    }

    /** Whether the user with this nick is the founder, who must be listed. */
    predicate IsFounder(nick: string)
      reads this`opts, this`users
    {
      opts.founder in Nicks(users) && nick == opts.founder
    }

    /** The local user, if listed, is not a bot. */
    ghost predicate MeNotBot()
      reads this`users
    {
      me in Nicks(users) ==> !IsBot(StatusOf(users, me))
    }

    function NumPlayers(): u32
      reads this`users, this`bots
    {
      U32(|users| - |bots|)
    }

    function NumActivePlayers(): u32
      reads this`users, this`bots, this`opts
    {
      U32(NumPlayers() - opts.spectators)
    }

    // ------------------------------------------------------------ occupancy

    method PlayerJoinedTeam(team: int)
      modifies this`teamsSizes
      ensures teamsSizes == Occupancy.Joined(old(teamsSizes), team)
    {
      if team !in teamsSizes {
        teamsSizes := teamsSizes[team := 1];
      } else {
        teamsSizes := teamsSizes[team := teamsSizes[team] + 1];
      }
    }

    method PlayerJoinedAlly(ally: int)
      modifies this`allySizes
      ensures allySizes == Occupancy.Joined(old(allySizes), ally)
    {
      if ally !in allySizes {
        allySizes := allySizes[ally := 1];
      } else {
        allySizes := allySizes[ally := allySizes[ally] + 1];
      }
    }

    method PlayerLeftTeam(team: int)
      modifies this`teamsSizes
      ensures teamsSizes == Occupancy.Left(old(teamsSizes), team)
    {
      if team in teamsSizes {
        var n := teamsSizes[team] - 1;
        if n == 0 {
          teamsSizes := teamsSizes - {team};
        } else {
          teamsSizes := teamsSizes[team := n];
        }
      }
    }

    method PlayerLeftAlly(ally: int)
      modifies this`allySizes
      ensures allySizes == Occupancy.Left(old(allySizes), ally)
    {
      if ally in allySizes {
        var n := allySizes[ally] - 1;
        if n == 0 {
          allySizes := allySizes - {ally};
        } else {
          allySizes := allySizes[ally := n];
        }
      }
    }

    // ------------------------------------------------------------ start rectangles

    method AddStartRect(ally: u32, left: u32, top: u32, right: u32, bottom: u32)
      modifies this`rects
      ensures rects == StartRects.Add(old(rects), ally, left, top, right, bottom)
    {
      rects := rects[ally := StartRects.StartRect(ally, left, top, right, bottom, true, false, false, true)];
    }

    method RemoveStartRect(ally: u32)
      modifies this`rects
      ensures rects == StartRects.MarkRemoved(old(rects), ally)
    {
      if ally in rects {
        rects := rects[ally := rects[ally].(toDelete := true)];
      }
    }

    method ResizeStartRect(ally: u32)
      modifies this`rects
      ensures rects == StartRects.MarkResized(old(rects), ally)
    {
      if ally in rects {
        rects := rects[ally := rects[ally].(toResize := true)];
      }
    }

    method StartRectRemoved(ally: u32)
      modifies this`rects
      ensures rects == StartRects.ConfirmRemoved(old(rects), ally)
    {
      if ally in rects && rects[ally].toDelete {
        rects := rects - {ally};
      }
    }

    method StartRectResized(ally: u32)
      modifies this`rects
      ensures rects == StartRects.ConfirmResized(old(rects), ally)
    {
      if ally in rects {
        rects := rects[ally := rects[ally].(toResize := false)];
      }
    }

    method StartRectAdded(ally: u32)
      modifies this`rects
      ensures rects == StartRects.ConfirmAdded(old(rects), ally)
    {
      if ally in rects {
        rects := rects[ally := rects[ally].(toAdd := false)];
      }
    }

    /** GetNextFreeRectIdx: the lowest ally whose rectangle is not in use. */
    method GetNextFreeRectIdx() returns (r: u32)
      requires |rects| < 0x1_0000_0000
      ensures !StartRects.IsOk(StartRects.Get(rects, r))
      ensures forall i: u32 :: i < r ==> StartRects.IsOk(StartRects.Get(rects, i))
    {
      r := StartRects.NextFreeIdx(rects);
    }

    method ClearStartRects()
      modifies this`rects
      ensures rects == map[]
    {
      rects := map[];
    }

    // ------------------------------------------------------------ forcing a user

    /** ForceSide: the founder may change anybody's side, anybody may change a bot's. */
    method ForceSide(nick: string, side: int)
      requires nick in Nicks(users)
      modifies this`users
      ensures var s := StatusOf(old(users), nick);
        users == if IsFounderMe() || IsBot(s) then UpdateStatus(old(users), nick, s.(side := side)) else old(users)
    {
      var s := StatusOf(users, nick);
      if IsFounderMe() || IsBot(s) {
        users := UpdateStatus(users, nick, s.(side := side));
      }
    }

    /** ForceTeam: a playing user moves from its team to the new one. */
    method ForceTeam(nick: string, team: int)
      requires nick in Nicks(users)
      modifies this`users, this`teamsSizes
      ensures var s := StatusOf(old(users), nick);
        if IsFounderMe() || IsBot(s) then
          users == UpdateStatus(old(users), nick, s.(team := team))
          && teamsSizes == (if s.spectator then old(teamsSizes)
                            else Occupancy.Joined(Occupancy.Left(old(teamsSizes), s.team), team))
        else users == old(users) && teamsSizes == old(teamsSizes)
    {
      var s := StatusOf(users, nick);
      if IsFounderMe() || IsBot(s) {
        if !s.spectator {
          PlayerLeftTeam(s.team);
          PlayerJoinedTeam(team);
        }
        users := UpdateStatus(users, nick, s.(team := team));
      }
    }

    /** ForceAlly: a playing user moves from its ally to the new one. */
    method ForceAlly(nick: string, ally: int)
      requires nick in Nicks(users)
      modifies this`users, this`allySizes
      ensures var s := StatusOf(old(users), nick);
        if IsFounderMe() || IsBot(s) then
          users == UpdateStatus(old(users), nick, s.(ally := ally))
          && allySizes == (if s.spectator then old(allySizes)
                           else Occupancy.Joined(Occupancy.Left(old(allySizes), s.ally), ally))
        else users == old(users) && allySizes == old(allySizes)
    {
      var s := StatusOf(users, nick);
      if IsFounderMe() || IsBot(s) {
        if !s.spectator {
          PlayerLeftAlly(s.ally);
          PlayerJoinedAlly(ally);
        }
        users := UpdateStatus(users, nick, s.(ally := ally));
      }
    }

    method ForceColour(nick: string, colour: Colour)
      requires nick in Nicks(users)
      modifies this`users
      ensures var s := StatusOf(old(users), nick);
        users == if IsFounderMe() || IsBot(s) then UpdateStatus(old(users), nick, s.(colour := colour)) else old(users)
    {
      var s := StatusOf(users, nick);
      if IsFounderMe() || IsBot(s) {
        users := UpdateStatus(users, nick, s.(colour := colour));
      }
    }

    method SetHandicap(nick: string, handicap: int)
      requires nick in Nicks(users)
      modifies this`users
      ensures var s := StatusOf(old(users), nick);
        users == if IsFounderMe() || IsBot(s) then UpdateStatus(old(users), nick, s.(handicap := handicap)) else old(users)
    {
      var s := StatusOf(users, nick);
      if IsFounderMe() || IsBot(s) {
        users := UpdateStatus(users, nick, s.(handicap := handicap));
      }
    }

    /** ForceSpectator as written: the occupancy is joined when the user currently plays
        and left when it is to spectate (see Occupancy.ForcedAsWritten), and the ready
        count follows the same two tests; the founder counts and announces a change of
        the spectator flag. */
    method ForceSpectator(nick: string, spectator: bool)
      requires nick in Nicks(users)
      modifies this`users, this`teamsSizes, this`allySizes, this`playersReady, this`opts, this`events
      ensures var s := StatusOf(old(users), nick);
        var founder := old(IsFounderMe());
        var readyHuman := s.ready && !IsBot(s);
        var flips := founder && s.spectator != spectator;
        if founder || IsBot(s) then
          users == UpdateStatus(old(users), nick, s.(spectator := spectator))
          && teamsSizes == Occupancy.ForcedAsWritten(old(teamsSizes), s.team, s.spectator, spectator)
          && allySizes == Occupancy.ForcedAsWritten(old(allySizes), s.ally, s.spectator, spectator)
          && playersReady == old(playersReady) + (if !s.spectator && readyHuman then 1 else 0)
                                               - (if spectator && readyHuman then 1 else 0)
          && opts == (if flips then old(opts).(spectators := old(opts.spectators) + (if spectator then 1 else -1))
                      else old(opts))
          && events == old(events) + (if flips then [HiSpectators] else [])
        else
          users == old(users) && teamsSizes == old(teamsSizes) && allySizes == old(allySizes)
          && playersReady == old(playersReady) && opts == old(opts) && events == old(events)
    {
      var s := StatusOf(users, nick);
      var founder := IsFounderMe();
      if founder || IsBot(s) {
        SwitchOccupancy(s, spectator);
        if founder {
          if s.spectator != spectator {
            if spectator {
              opts := opts.(spectators := opts.spectators + 1);
            } else {
              opts := opts.(spectators := opts.spectators - 1);
            }
            events := events + [HiSpectators];
          }
        }
        users := UpdateStatus(users, nick, s.(spectator := spectator));
      }
    }

    /** The occupancy and ready-count part of ForceSpectator. */
    method SwitchOccupancy(s: BattleStatus, spectator: bool)
      modifies this`teamsSizes, this`allySizes, this`playersReady
      ensures teamsSizes == Occupancy.ForcedAsWritten(old(teamsSizes), s.team, s.spectator, spectator)
      ensures allySizes == Occupancy.ForcedAsWritten(old(allySizes), s.ally, s.spectator, spectator)
      ensures playersReady == old(playersReady) + (if !s.spectator && s.ready && !IsBot(s) then 1 else 0)
                                                - (if spectator && s.ready && !IsBot(s) then 1 else 0)
    {
      if !s.spectator {
        PlayerJoinedTeam(s.team);
        PlayerJoinedAlly(s.ally);
        if s.ready && !IsBot(s) {
          playersReady := playersReady + 1;
        }
      }
      if spectator {
        PlayerLeftTeam(s.team);
        PlayerLeftAlly(s.ally);
        if s.ready && !IsBot(s) {
          playersReady := playersReady - 1;
        }
      }
    }

    // ------------------------------------------------------------ lookups

    /** GetPlayerNum: the index of the user in the list; `found` is false where the source
        throws because the user is not in the battle. */
    method GetPlayerNum(nick: string) returns (found: bool, n: int)
      ensures found <==> nick in Nicks(users)
      ensures found ==> n == IndexOfNick(users, nick) && users[n].nick == nick
      ensures !found ==> n == -1
    {
      for i := 0 to |users|
        invariant forall j :: 0 <= j < i ==> users[j].nick != nick
      {
        if users[i].nick == nick {
          assert nick in Nicks(users);
          return true, i;
        }
      }
      return false, -1;
    }

    method GetMyPlayerNum() returns (found: bool, n: int)
      ensures found <==> me in Nicks(users)
      ensures found ==> n == IndexOfNick(users, me) && users[n].nick == me
      ensures !found ==> n == -1
    {
      found, n := GetPlayerNum(me);
    }

    /** GetFreeTeam: the lowest team no playing user holds, optionally not counting me. */
    method GetFreeTeam(excludeMe: bool) returns (team: int)
      ensures team >= 0 && !Allocators.Held(users, me, excludeMe, false, team)
      ensures forall v :: 0 <= v < team ==> Allocators.Held(users, me, excludeMe, false, v)
    {
      team := Allocators.LowestFree(users, me, excludeMe, false);
    }

    /** GetFreeAlly: the lowest ally no playing user holds, optionally not counting me. */
    method GetFreeAlly(excludeMe: bool) returns (ally: int)
      ensures ally >= 0 && !Allocators.Held(users, me, excludeMe, true, ally)
      ensures forall v :: 0 <= v < ally ==> Allocators.Held(users, me, excludeMe, true, v)
    {
      ally := Allocators.LowestFree(users, me, excludeMe, true);
    }

    // ------------------------------------------------------------ map and game

    method SetHostMap(name: string, hash: string) returns (ok: bool)
      modifies this`hostMap, this`mapLoaded
      ensures ok <==> name != ""
      ensures ok && old(hostMap) != Identity(name, hash) ==> hostMap == Identity(name, hash) && !mapLoaded
      ensures !ok || old(hostMap) == Identity(name, hash) ==> hostMap == old(hostMap) && mapLoaded == old(mapLoaded)
    {
      if name == "" {
        return false;
      }
      if name != hostMap.name || hash != hostMap.hash {
        mapLoaded := false;
        hostMap := Identity(name, hash);
      }
      return true;
    }

    method SetLocalMap(name: string, index: Unitsync.Index) returns (ok: bool)
      modifies this`localMap, this`mapLoaded
      ensures ok <==> name != ""
      ensures var m := index.getMap(name);
        if ok && (m.name != old(localMap).name || m.hash != old(localMap).hash) then localMap == m && mapLoaded
        else localMap == old(localMap) && mapLoaded == old(mapLoaded)
    {
      if name == "" {
        return false;
      }
      var m := index.getMap(name);
      if m.name != localMap.name || m.hash != localMap.hash {
        localMap := m;
        mapLoaded := true;
      }
      return true;
    }

    method LoadMap(index: Unitsync.Index) returns (m: Unitsync.MapInfo)
      modifies this`localMap, this`mapLoaded
      ensures (mapLoaded, localMap) == LoadedMap(index, hostMap, old(mapLoaded), old(localMap))
      ensures m == localMap
    {
      if !mapLoaded && hostMap.name != "" {
        if index.mapExists(hostMap.name, hostMap.hash) {
          localMap := index.getMap(hostMap.name);
          var loaded := index.loadOptions(MapOption, hostMap.name);
          if loaded {
            mapLoaded := true;
          }
        }
      }
      m := localMap;
    }

    method SetHostMod(name: string, hash: string)
      modifies this`hostMod, this`modLoaded
      ensures hostMod == Identity(name, hash)
      ensures modLoaded == (old(modLoaded) && old(hostMod) == Identity(name, hash))
    {
      if hostMod.name != name || hostMod.hash != hash {
        modLoaded := false;
        hostMod := Identity(name, hash);
      }
    }

    method SetLocalMod(m: Unitsync.ModInfo)
      modifies this`localMod, this`modLoaded, this`previousLocalModName
      ensures if m.name != old(localMod).name || m.hash != old(localMod).hash then
          localMod == m && modLoaded && previousLocalModName == old(localMod).name
        else
          localMod == old(localMod) && modLoaded == old(modLoaded) && previousLocalModName == old(previousLocalModName)
    {
      if m.name != localMod.name || m.hash != localMod.hash {
        previousLocalModName := localMod.name;
        localMod := m;
        modLoaded := true;
      }
    }

    method LoadMod(index: Unitsync.Index) returns (m: Unitsync.ModInfo)
      modifies this`localMod, this`modLoaded
      ensures (modLoaded, localMod) == LoadedMod(index, hostMod, old(modLoaded), old(localMod))
      ensures m == localMod
    {
      if !modLoaded {
        if index.modExists(hostMod.name, hostMod.hash) {
          localMod := index.getMod(hostMod.name);
          var loaded := index.loadOptions(ModOption, hostMod.name);
          if loaded {
            modLoaded := true;
          }
        }
      }
      m := localMod;
    }

    predicate MapExists(index: Unitsync.Index, compareHash: bool)
      reads this`hostMap
    {
      index.mapExists(hostMap.name, if compareHash then hostMap.hash else "")
    }

    predicate ModExists(index: Unitsync.Index, compareHash: bool)
      reads this`hostMod
    {
      index.modExists(hostMod.name, if compareHash then hostMod.hash else "")
    }

    /** IsSynced: after loading the game and the map, the local ones match what the host
        announced and both exist. */
    method IsSynced(index: Unitsync.Index) returns (synced: bool)
      modifies this`localMod, this`modLoaded, this`localMap, this`mapLoaded
      ensures (modLoaded, localMod) == LoadedMod(index, hostMod, old(modLoaded), old(localMod))
      ensures (mapLoaded, localMap) == LoadedMap(index, hostMap, old(mapLoaded), old(localMap))
      ensures synced <==> Matches(hostMap, localMap.name, localMap.hash) && Matches(hostMod, localMod.name, localMod.hash)
                          && MapExists(index, true) && ModExists(index, true)
    {
      var _ := LoadMod(index);
      var _ := LoadMap(index);
      synced := true;
      if hostMap.hash != "" && hostMap.hash != "0" && hostMap.hash != localMap.hash {
        synced := false;
      } else if hostMap.name != "" && localMap.name != hostMap.name {
        synced := false;
      } else if hostMod.hash != "" && hostMod.hash != "0" && hostMod.hash != localMod.hash {
        synced := false;
      } else if hostMod.name != "" && localMod.name != hostMod.name {
        synced := false;
      } else if !MapExists(index, true) || !ModExists(index, true) {
        synced := false;
      }
    }

    /** GetFreePosition: the first start position of the (loaded) map that no playing user
        stands on, clamped into the map, or the map centre. */
    method GetFreePosition(index: Unitsync.Index) returns (pos: Position)
      modifies this`localMap, this`mapLoaded
      ensures (mapLoaded, localMap) == LoadedMap(index, hostMap, old(mapLoaded), old(localMap))
      ensures Allocators.IsFreePosition(localMap.positions, users, localMap.width, localMap.height, pos)
    {
      var m := LoadMap(index);
      pos := Allocators.FreePosition(m.positions, users, m.width, m.height);
    }

    // ------------------------------------------------------------ restrictions

    method RestrictUnit(name: string, count: i32)
      modifies this`restricted
      ensures restricted == old(restricted)[name := count]
    {
      restricted := restricted[name := count];
    }

    method UnrestrictUnit(name: string)
      modifies this`restricted
      ensures restricted == old(restricted) - {name}
    {
      if name in restricted {
        restricted := restricted - {name};
      }
    }

    method UnrestrictAllUnits()
      modifies this`restricted
      ensures restricted == map[]
    {
      restricted := map[];
    }

    // ------------------------------------------------------------ playback accessors

    /** SetScript: the start script the battle is rebuilt from. */
    method SetScript(s: seq<bv8>)
      modifies this`script
      ensures script == s
    {
      script := s;
    }

    method SetPlayBackFilePath(path: string)
      modifies this`playbackPath
      ensures playbackPath == path
    {
      playbackPath := path;
    }

    method SetEngineName(name: string)
      modifies this`engineName
      ensures engineName == name
    {
      engineName := name;
    }

    method SetEngineVersion(version: string)
      modifies this`engineVersion
      ensures engineVersion == version
    {
      engineVersion := version;
    }

    method SetBattleType(t: BattleType)
      modifies this`battleType
      ensures battleType == t
    {
      battleType := t;
    }

    /** GetHostModName: the name of the game the host announced. */
    function GetHostModName(): string
      reads this`hostMod
    {
      hostMod.name
    }

    // ------------------------------------------------------------ rebuilding from a script

    /** The part of the battle GetBattleFromScript's player loop changes, with the
        loop's own spectator count. */
    function Snapshot(spectators: int): ScriptRebuild.Rebuilt
      reads this`users, this`demoUsers, this`teamsSizes, this`allySizes, this`rects, this`parsedTeams,
               this`parsedAllies, this`playersReady, this`playersSync, this`playersOk
    {
      ScriptRebuild.Rebuilt(users, demoUsers, teamsSizes, allySizes, rects, parsedTeams, parsedAllies,
                            spectators, playersReady, playersSync, playersOk)
    }

    /** The part of the battle GetBattleFromScript changes. */
    function ScriptState(): ScriptRebuildState
      reads this`hostMod, this`modLoaded, this`hostMap, this`mapLoaded, this`opts, this`users, this`demoUsers, this`teamsSizes, this`allySizes, this`rects, this`parsedTeams,
               this`parsedAllies, this`playersReady, this`playersSync, this`playersOk
    {
      ScriptRebuildState(hostMod, modLoaded, hostMap, mapLoaded, opts, Snapshot(0))
    }

    /** GetBattleFromScript: parse the start script and rebuild the battle from its GAME
        section (ScriptRead). `parse` is the TDF parser and `colourOf` reads an "r g b"
        colour; the sides come from the archive index only when `loadMapMod` is set. */
    method GetBattleFromScript(loadMapMod: bool, parse: seq<bv8> -> Tdf.Node, hashFn: string -> string,
                               index: Unitsync.Index, colourOf: string -> Colour) returns (completed: bool)
      requires Valid()
      modifies this`hostMod, this`modLoaded, this`hostMap, this`mapLoaded, this`users, this`demoUsers,
               this`teamsSizes, this`allySizes, this`rects, this`parsedTeams, this`parsedAllies, this`opts,
               this`playersReady, this`playersSync, this`playersOk
      ensures Valid()
      ensures ScriptRead(old(ScriptState()), ScriptState(), parse(old(script)), loadMapMod, hashFn, index,
                         colourOf, completed)
    {
      var root := parse(script);
      var game := Tdf.Find(root, "GAME");
      if game.None? {
        opts := DefaultOptions;
        return true;
      }
      completed := ReadGame(game.value, loadMapMod, hashFn, index, colourOf);
    }

    /** GetBattleFromScript once the GAME section g is found. The map hash is left as
        stored: the source makes the game hash unsigned a second time from the map hash,
        into a variable it no longer reads. */
    method ReadGame(g: Tdf.Node, loadMapMod: bool, hashFn: string -> string, index: Unitsync.Index,
                    colourOf: string -> Colour) returns (completed: bool)
      requires Valid()
      modifies this`hostMod, this`modLoaded, this`hostMap, this`mapLoaded, this`users, this`demoUsers,
               this`teamsSizes, this`allySizes, this`rects, this`parsedTeams, this`parsedAllies, this`opts,
               this`playersReady, this`playersSync, this`playersOk
      ensures Valid()
      ensures GameReadInto(old(ScriptState()), ScriptState(), g, loadMapMod, hashFn, index, colourOf, completed)
    {
      ghost var s0 := ScriptState();
      completed := ReadHost(g, hashFn);
      ghost var s1 := ScriptState();
      if !completed {
        GameReadFromParts(s0, s1, s1, g, loadMapMod, hashFn, index, colourOf, completed);
        return;
      }
      var sides := if loadMapMod then index.getSides(Tdf.GetString(g, "GameType", "")) else [];
      ReadPlayers(g, sides, colourOf);
      assert ScriptState().rebuilt.(spectators := opts.spectators) == Snapshot(opts.spectators);
      GameReadFromParts(s0, s1, ScriptState(), g, loadMapMod, hashFn, index, colourOf, completed);
    }

    /** The first part of ReadGame: the host's game and map from the GAME section g;
        false, with the map left as it was, when the map name is empty. */
    method ReadHost(g: Tdf.Node, hashFn: string -> string) returns (completed: bool)
      modifies this`hostMod, this`modLoaded, this`hostMap, this`mapLoaded
      ensures HostRead(old(ScriptState()), ScriptState(), g, hashFn, completed)
    {
      ghost var rebuilt := Snapshot(0);
      var modName := Tdf.GetString(g, "GameType", "");
      var modHash := Tdf.GetString(g, "ModHash", "");
      if modHash != "" {
        modHash := hashFn(modHash);
      }
      SetHostMod(modName, modHash);
      var mapName := Tdf.GetString(g, "MapName", "");
      var mapHash := Tdf.GetString(g, "MapHash", "");
      if modHash != "" {
        modHash := hashFn(mapHash);
      }
      completed := SetHostMap(mapName, mapHash);
      assert Snapshot(0) == rebuilt;
    }

    /** The player loop of GetBattleFromScript and the battle options it leaves. */
    method ReadPlayers(g: Tdf.Node, sides: seq<string>, colourOf: string -> Colour)
      requires Valid()
      modifies this`users, this`demoUsers, this`teamsSizes, this`allySizes, this`rects, this`parsedTeams,
               this`parsedAllies, this`opts, this`playersReady, this`playersSync, this`playersOk
      ensures Valid()
      ensures var n := ScriptRebuild.PlayerCount(g);
        Snapshot(opts.spectators) == ScriptRebuild.ScriptFold(old(Snapshot(0)), g, n, sides, colourOf)
        && opts == DefaultOptions.(spectators := opts.spectators, maxPlayers := n)
    {
      var playerNum := Tdf.GetInt(g, "NumPlayers", 0);
      var usersNum := Tdf.GetInt(g, "NumUsers", 0);
      if usersNum > 0 {
        playerNum := usersNum;
      }
      ghost var st0 := Snapshot(0);
      var spectators := 0;
      var i := 0;
      while i < playerNum
        invariant Valid()
        invariant 0 <= i && (i <= playerNum || i == 0)
        invariant Snapshot(spectators) == ScriptRebuild.ScriptFold(st0, g, i, sides, colourOf)
      {
        spectators := ReadPlayer(g, i, sides, colourOf, spectators);
        i := i + 1;
      }
      assert ScriptRebuild.ScriptFold(st0, g, i, sides, colourOf) == ScriptRebuild.ScriptFold(st0, g, playerNum, sides, colourOf);
      opts := DefaultOptions.(spectators := spectators, maxPlayers := playerNum);
    }

    /** One iteration of the player loop: the AIi section, else the PLAYERi section, if
        either exists, seats a user from the demo (SeatFromSection) and lists it. The
        battle's own spectator count is bumped as well, though the options are replaced
        once the loop ends. */
    method ReadPlayer(g: Tdf.Node, i: int, sides: seq<string>, colourOf: string -> Colour, spectators: int)
      returns (spectators': int)
      requires Valid()
      modifies this`users, this`demoUsers, this`teamsSizes, this`allySizes, this`rects, this`parsedTeams,
               this`parsedAllies, this`opts, this`playersReady, this`playersSync, this`playersOk
      ensures Valid()
      ensures Snapshot(spectators') == ScriptRebuild.PlayerStep(old(Snapshot(spectators)), g, i, sides, colourOf)
    {
      var player := ScriptRebuild.Section(g, "PLAYER", i);
      var bot := ScriptRebuild.Section(g, "AI", i);
      if player.None? && bot.None? {
        return spectators;
      }
      var node := if bot.Some? then bot.value else player.value;
      var status;
      spectators', status := SeatFromSection(g, i, node, sides, colourOf, spectators);
      ScriptRebuild.SeatKeepsUsers(old(Snapshot(spectators)), g, i, node, sides, colourOf);
      var u := User(Tdf.GetString(node, "Name", ""), status);
      assert u.status.(isFromDemo := true) == u.status;
      AddUserFromDemo(u);
    }

    /** A player section's effect before its user is listed, as SeatPlayer states it:
        the team is joined and looked up (reading its TEAMn section the first time), the
        counters bumped, and, when the team exists, its ally joined and looked up. The
        status is built from the section first (SectionStatus); the source interleaves
        those field writes with the joins, which read only the team and spectator flag. */
    method SeatFromSection(g: Tdf.Node, i: int, node: Tdf.Node, sides: seq<string>, colourOf: string -> Colour,
                           spectators: int) returns (spectators': int, status: BattleStatus)
      requires Valid()
      modifies this`teamsSizes, this`allySizes, this`rects, this`parsedTeams, this`parsedAllies, this`opts,
               this`playersReady, this`playersSync, this`playersOk
      ensures Valid()
      ensures var sp := ScriptRebuild.SeatPlayer(old(Snapshot(spectators)), g, i, node, sides, colourOf);
        status == sp.1 && spectators' == sp.0.spectators
        && teamsSizes == sp.0.teamsSizes && allySizes == sp.0.allySizes && rects == sp.0.rects
        && parsedTeams == sp.0.parsedTeams && parsedAllies == sp.0.parsedAllies
        && playersReady == sp.0.ready && playersSync == sp.0.sync && playersOk == sp.0.ok
    {
      var ti;
      spectators', status, ti := JoinTeamFromSection(g, i, node, sides, colourOf, spectators);
      if ti.exist {
        ghost var st1 := Snapshot(spectators');
        ghost var at := Snapshot(0);
        status := ScriptRebuild.TeamStatus(status, ti);
        JoinAlly(g, status.spectator, ti.allyTeam);
        ScriptRebuild.WithAllyFrame(st1, at, g, status.spectator, ti.allyTeam);
      }
    }

    /** JoinTeam's part of a player section. */
    method JoinTeamFromSection(g: Tdf.Node, i: int, node: Tdf.Node, sides: seq<string>, colourOf: string -> Colour,
                               spectators: int) returns (spectators': int, status: BattleStatus, ti: ScriptRebuild.TeamInfo)
      requires Valid()
      modifies this`teamsSizes, this`parsedTeams, this`opts, this`playersReady, this`playersSync, this`playersOk
      ensures Valid()
      ensures var jt := ScriptRebuild.JoinTeam(old(Snapshot(spectators)), g, i, node, sides, colourOf);
        Snapshot(spectators') == jt.0 && status == jt.1 && ti == jt.2
    {
      var isBot := ScriptRebuild.Section(g, "AI", i).Some?;
      status := SectionStatus(g, node, isBot);
      spectators' := spectators + (if status.spectator then 1 else 0);
      CountSeat(status, isBot);
      ti := LookUpTeam(g, status.team, sides, colourOf);
    }

    /** The counting part of a player section: a player joins its team; a spectator
        bumps the spectator count, a human player the ready, sync and ok counters. */
    method CountSeat(status: BattleStatus, isBot: bool)
      requires Occupancy.Valid(teamsSizes)
      modifies this`teamsSizes, this`opts, this`playersReady, this`playersSync, this`playersOk
      ensures Occupancy.Valid(teamsSizes)
      ensures teamsSizes == if status.spectator then old(teamsSizes) else Occupancy.Joined(old(teamsSizes), status.team)
      ensures opts == if status.spectator then old(opts).(spectators := old(opts).spectators + 1) else old(opts)
      ensures var human := if !status.spectator && !isBot then 1 else 0;
        playersReady == old(playersReady) + human && playersSync == old(playersSync) + human
        && playersOk == old(playersOk) + human
    {
      if !status.spectator {
        PlayerJoinedTeam(status.team);
      }
      if status.spectator {
        opts := opts.(spectators := opts.spectators + 1);
      } else if !isBot {
        playersReady := playersReady + 1;
        playersSync := playersSync + 1;
        playersOk := playersOk + 1;
      }
    }

    /** The status a player section describes, field by field: from the demo, its
        spectator flag and team, synced and ready; an AI's short name, version and the
        name of the player hosting it. */
    static method SectionStatus(g: Tdf.Node, node: Tdf.Node, isBot: bool) returns (status: BattleStatus)
      ensures status == ScriptRebuild.PlayerStatus(g, node, isBot)
    {
      status := DefaultStatus.(isFromDemo := true);
      status := status.(spectator := Tdf.GetInt(node, "Spectator", 0) != 0);
      status := status.(team := Tdf.GetInt(node, "Team", 0));
      status := status.(sync := 1, ready := true);
      if isBot {
        status := status.(aiShortName := Tdf.GetString(node, "ShortName", ""),
                          aiVersion := Tdf.GetString(node, "Version", ""));
        var owner := ScriptRebuild.Section(g, "PLAYER", Tdf.GetInt(node, "Host", 0));
        if owner.Some? {
          status := status.(owner := Tdf.GetString(owner.value, "Name", ""));
        }
      }
    }

    /** `parsed_teams[team]`: the cached team info, or the TEAMn section read and cached
        the first time; either way the team gets an entry. */
    method LookUpTeam(g: Tdf.Node, team: int, sides: seq<string>, colourOf: string -> Colour)
      returns (ti: ScriptRebuild.TeamInfo)
      modifies this`parsedTeams
      ensures ti == ScriptRebuild.LookUpTeam(old(parsedTeams), g, team, sides, colourOf)
      ensures parsedTeams == old(parsedTeams)[team := ti]
    {
      ti := if team in parsedTeams then parsedTeams[team] else ScriptRebuild.NoTeam;
      if !ti.exist {
        var t := ScriptRebuild.Section(g, "TEAM", team);
        if t.Some? {
          ti := ScriptRebuild.ReadTeam(t.value, sides, colourOf);
        }
      }
      parsedTeams := parsedTeams[team := ti];
    }

    /** The ally is joined (by a player) and looked up; the first ALLYTEAMn section read
        also adds the ally's start rectangle, with the left edge taken from StartRectTop. */
    method JoinAlly(g: Tdf.Node, spectator: bool, ally: int)
      requires Valid()
      modifies this`allySizes, this`parsedAllies, this`rects
      ensures Valid()
      ensures var w := ScriptRebuild.WithAlly(old(Snapshot(0)), g, spectator, ally);
        allySizes == w.allySizes && parsedAllies == w.parsedAllies && rects == w.rects
    {
      if !spectator {
        PlayerJoinedAlly(ally);
      }
      LookUpAlly(g, ally);
    }

    /** The ally cache: a first ALLYTEAMn section read is cached and adds its start
        rectangle, with the left edge taken from StartRectTop. */
    method LookUpAlly(g: Tdf.Node, ally: int)
      requires StartRects.Valid(rects)
      modifies this`parsedAllies, this`rects
      ensures StartRects.Valid(rects)
      ensures var cached := if ally in old(parsedAllies) then old(parsedAllies)[ally] else ScriptRebuild.NoAlly;
        var found := ScriptRebuild.Section(g, "ALLYTEAM", ally);
        var first := !cached.exist && found.Some?;
        var ai := if first then ScriptRebuild.ReadAlly(found.value) else cached;
        parsedAllies == old(parsedAllies)[ally := ai]
        && rects == if first then StartRects.Add(old(rects), U32(ally), U32(ai.startRectTop), U32(ai.startRectTop),
                                                 U32(ai.startRectRight), U32(ai.startRectBottom))
                    else old(rects)
    {
      var ai := if ally in parsedAllies then parsedAllies[ally] else ScriptRebuild.NoAlly;
      parsedAllies := parsedAllies[ally := ai];
      if !ai.exist {
        var a := ScriptRebuild.Section(g, "ALLYTEAM", ally);
        if a.Some? {
          ai := ScriptRebuild.ReadAlly(a.value);
          parsedAllies := parsedAllies[ally := ai];
          AddStartRect(U32(ally), U32(ai.startRectTop), U32(ai.startRectTop), U32(ai.startRectRight),
                       U32(ai.startRectBottom));
        }
      }
    }

    // ------------------------------------------------------------ presets

    /** LoadOptionsPreset: look the name up in the store's list, case-insensitively (`lower`
        is the character lowering of that comparison); when found, make it the current
        preset and load each of its categories in turn. The settings store is passed in and the possibly updated store passed back; `download`
        is the user's answer when the preset names a map that is not installed
        (OnPresetRequiringMap). */
    method LoadOptionsPreset(name: string, lower: char -> char, store: SettingsStore.Store,
                             index: Unitsync.Index, download: bool)
      returns (found: bool, stored: SettingsStore.Store)
      requires Valid()
      requires Presets.FixPresetName(store.presetList, name, lower) != "" ==> 0xFFFF_FFFF !in rects
      modifies this`preset, this`options, this`localMap, this`mapLoaded, this`events, this`rects, this`restricted
      ensures Valid()
      ensures found <==> Presets.FixPresetName(store.presetList, name, lower) != ""
      ensures !found ==> stored == store && unchanged(this)
      ensures found ==>
        var p := Presets.FixPresetName(store.presetList, name, lower);
        var pl := LoadPrivate(SettingsStore.GetHostingPreset(store, p, PrivateOptions), p, store, index, download,
                              old(rects), old(mapLoaded), old(localMap));
        preset == p
        && options == LoadedOptions(old(options), store, p, LastOption)
        && stored == pl.store && (mapLoaded, localMap) == pl.local
        && rects == pl.rects && restricted == pl.restricted
        && events == old(events) + (if pl.mapSent then [HiMap] else [])
                     + [HiStartRects, HiStartRects, HiRestrictions, HiSendAllOpts]
    {
      var p := Presets.FixPresetName(store.presetList, name, lower);
      if p == "" {
        return false, store;
      }
      ghost var before := events;
      preset := p;
      stored := LoadCategories(p, store, index, download);
      ghost var loaded := events;
      events := events + [HiSendAllOpts];
      assert events == loaded + [HiSendAllOpts];
      found := true;
    }

    /** The loop over the categories of the found preset p, in order. */
    method LoadCategories(p: string, store: SettingsStore.Store, index: Unitsync.Index, download: bool)
      returns (stored: SettingsStore.Store)
      requires Valid() && 0xFFFF_FFFF !in rects
      modifies this`options, this`localMap, this`mapLoaded, this`events, this`rects, this`restricted
      ensures Valid()
      ensures var pl := LoadPrivate(SettingsStore.GetHostingPreset(store, p, PrivateOptions), p, store, index, download,
                                    old(rects), old(mapLoaded), old(localMap));
        options == LoadedOptions(old(options), store, p, LastOption)
        && stored == pl.store && (mapLoaded, localMap) == pl.local
        && rects == pl.rects && restricted == pl.restricted
        && events == old(events) + (if pl.mapSent then [HiMap] else []) + [HiStartRects, HiStartRects, HiRestrictions]
    {
      stored := store;
      ghost var pl := LoadPrivate(SettingsStore.GetHostingPreset(store, p, PrivateOptions), p, store, index, download,
                                  rects, mapLoaded, localMap);
      ghost var before := (mapLoaded, localMap, rects, restricted, events);
      ghost var after := (pl.local.0, pl.local.1, pl.rects, pl.restricted,
                          events + (if pl.mapSent then [HiMap] else []) + [HiStartRects, HiStartRects, HiRestrictions]);
      stored := LoadEachCategory(p, store, index, download, pl, before, after);
    }

    /** LoadOptionsPreset's loop over the categories, from the first to the last. */
    method LoadEachCategory(p: string, store: SettingsStore.Store, index: Unitsync.Index, download: bool,
                            ghost pl: PrivateLoad,
                            ghost before: (bool, Unitsync.MapInfo, StartRects.Rects, map<string, i32>, seq<HostInfo>),
                            ghost after: (bool, Unitsync.MapInfo, StartRects.Rects, map<string, i32>, seq<HostInfo>))
      returns (stored: SettingsStore.Store)
      requires Valid() && 0xFFFF_FFFF !in rects
      requires pl == LoadPrivate(SettingsStore.GetHostingPreset(store, p, PrivateOptions), p, store, index, download,
                                 rects, mapLoaded, localMap)
      requires before == (mapLoaded, localMap, rects, restricted, events)
      requires after == (pl.local.0, pl.local.1, pl.rects, pl.restricted,
                         events + (if pl.mapSent then [HiMap] else []) + [HiStartRects, HiStartRects, HiRestrictions])
      modifies this`options, this`localMap, this`mapLoaded, this`events, this`rects, this`restricted
      ensures Valid() && options == LoadedOptions(old(options), store, p, LastOption)
      ensures stored == pl.store && (mapLoaded, localMap, rects, restricted, events) == after
    {
      stored := store;
      PrivateLoadKeepsOthers(SettingsStore.GetHostingPreset(store, p, PrivateOptions), p, store, index, download,
                             rects, mapLoaded, localMap);
      for i := 0 to LastOption
        invariant Valid()
        invariant options == LoadedOptions(old(options), store, p, i)
        invariant i <= PrivateOptions ==> stored == store && (mapLoaded, localMap, rects, restricted, events) == before
        invariant i > PrivateOptions ==> stored == pl.store && (mapLoaded, localMap, rects, restricted, events) == after
      {
        assert i != PrivateOptions ==>
          SettingsStore.GetHostingPreset(stored, p, i) == SettingsStore.GetHostingPreset(store, p, i);
        stored := LoadCategory(i, p, stored, index, download, old(options), store);
      }
    }

    /** One category of the preset p, read from the store: the private one is loaded as
        such, any other is set option by option. */
    method LoadCategory(i: nat, p: string, store: SettingsStore.Store, index: Unitsync.Index, download: bool,
                        ghost options0: map<int, map<string, string>>, ghost store0: SettingsStore.Store)
      returns (stored: SettingsStore.Store)
      requires Valid() && (i == PrivateOptions ==> 0xFFFF_FFFF !in rects)
      requires options == LoadedOptions(options0, store0, p, i)
      requires i != PrivateOptions ==> SettingsStore.GetHostingPreset(store, p, i) == SettingsStore.GetHostingPreset(store0, p, i)
      modifies this`options, this`localMap, this`mapLoaded, this`events, this`rects, this`restricted
      ensures Valid()
      ensures options == LoadedOptions(options0, store0, p, i + 1)
      ensures i != PrivateOptions ==>
        stored == store && unchanged(this`localMap, this`mapLoaded, this`events, this`rects, this`restricted)
      ensures i == PrivateOptions ==>
        var pl := LoadPrivate(SettingsStore.GetHostingPreset(store, p, i), p, store, index, download,
                              old(rects), old(mapLoaded), old(localMap));
        stored == pl.store && (mapLoaded, localMap) == pl.local
        && rects == pl.rects && restricted == pl.restricted
        && events == old(events) + (if pl.mapSent then [HiMap] else []) + [HiStartRects, HiStartRects, HiRestrictions]
    {
      var o := SettingsStore.GetHostingPreset(store, p, i);
      if i != PrivateOptions {
        SetOptions(i, o);
        stored := store;
      } else {
        stored := LoadPrivateOptions(o, p, store, index, download);
      }
    }

    /** setSingleOption for every stored option of category c, in key order: an option the
        category defines takes the stored value; any other is ignored. */
    method SetOptions(c: int, o: map<string, string>)
      modifies this`options
      ensures options == if c in old(options) then old(options)[c := Presets.Applied(old(options)[c], o)] else old(options)
    {
      var rest := o;
      while rest != map[]
        invariant c !in old(options) ==> options == old(options)
        invariant c in old(options) ==>
          c in options && options == old(options)[c := options[c]]
          && Presets.Applied(options[c], rest) == Presets.Applied(old(options)[c], o)
        decreases |rest|
      {
        assert rest.Keys != {} by {
          var k :| k in rest;
        }
        var k := LeastKey(rest.Keys);
        if c in options {
          Presets.AppliedStep(options[c], rest, k);
        }
        SetSingleOption(c, k, rest[k]);
        rest := rest - {k};
      }
      if c in options {
        assert Presets.Applied(options[c], map[]) == options[c];
      }
    }

    /** setSingleOption: an option category c defines takes the value; any other is
        ignored. */
    method SetSingleOption(c: int, k: string, v: string)
      modifies this`options
      ensures options == if c in old(options) && k in old(options)[c] then old(options)[c := old(options)[c][k := v]]
                         else old(options)
    {
      if c in options && k in options[c] {
        options := options[c := options[c][k := v]];
      }
    }

    /** The private category of a preset: the map, the start rectangles and the unit
        restrictions, announcing each. */
    method LoadPrivateOptions(o: map<string, string>, p: string, store: SettingsStore.Store, index: Unitsync.Index,
                              download: bool) returns (stored: SettingsStore.Store)
      requires Valid() && 0xFFFF_FFFF !in rects
      modifies this`localMap, this`mapLoaded, this`events, this`rects, this`restricted
      ensures Valid()
      ensures var pl := LoadPrivate(o, p, store, index, download, old(rects), old(mapLoaded), old(localMap));
        stored == pl.store && (mapLoaded, localMap) == pl.local && rects == pl.rects && restricted == pl.restricted
        && events == old(events) + (if pl.mapSent then [HiMap] else []) + [HiStartRects, HiStartRects, HiRestrictions]
    {
      ghost var pl := LoadPrivate(o, p, store, index, download, rects, mapLoaded, localMap);
      stored := LoadPresetMap(o, p, store, index, download);
      assert stored == pl.store && (mapLoaded, localMap) == pl.local;
      LoadPresetLayout(o);
      assert rects == pl.rects && restricted == pl.restricted;
    }

    /** The rectangle and restriction part of the private options: every rectangle is
        marked for removal, then the preset's rectangles and its restrictions loaded, each
        step announced. */
    method LoadPresetLayout(o: map<string, string>)
      requires StartRects.Valid(rects) && 0xFFFF_FFFF !in rects
      modifies this`events, this`rects, this`restricted
      ensures StartRects.Valid(rects)
      ensures rects == Presets.LoadRects(MarkedBelow(old(rects), StartRects.LastIdx(old(rects)) as int + 1), o,
                                         U32(ParseLong(Presets.Lookup(o, "numrects"))))
      ensures restricted == Presets.DecodeRestrictions(Presets.Lookup(o, "restrictions"))
      ensures events == old(events) + [HiStartRects, HiStartRects, HiRestrictions]
    {
      MarkPresetRects();
      events := events + [HiStartRects];
      LoadPresetRects(o);
      events := events + [HiStartRects];
      LoadPresetRestrictions(o);
      events := events + [HiRestrictions];
    }

    /** The stored map is set when installed; a missing one is blanked in the store unless
        the user fetches it. */
    method LoadPresetMap(o: map<string, string>, p: string, store: SettingsStore.Store, index: Unitsync.Index,
                         download: bool) returns (stored: SettingsStore.Store)
      modifies this`localMap, this`mapLoaded, this`events
      ensures var mapName := Presets.Lookup(o, "mapname");
        var found := mapName != "" && index.mapExists(mapName, "");
        stored == (if mapName != "" && !found && !download
                   then SettingsStore.SetHostingPreset(store, p, PrivateOptions, o["mapname" := ""]) else store)
        && (mapLoaded, localMap) == (if found then LocalMapSet(index, mapName, old(mapLoaded), old(localMap))
                                     else (old(mapLoaded), old(localMap)))
        && events == old(events) + (if found then [HiMap] else [])
    {
      stored := store;
      var mapName := Presets.Lookup(o, "mapname");
      if mapName != "" {
        if index.mapExists(mapName, "") {
          var ok := SetLocalMap(mapName, index);
          events := events + [HiMap];
        } else if !download {
          stored := SettingsStore.SetHostingPreset(store, p, PrivateOptions, o["mapname" := ""]);
        }
      }
    }

    /** Every rectangle in use, up to the last ally, is marked for removal. Marking keeps
        every entry, so the last ally does not move while the loop runs. */
    method MarkPresetRects()
      requires StartRects.Valid(rects) && 0xFFFF_FFFF !in rects
      modifies this`rects
      ensures StartRects.Valid(rects)
      ensures rects == MarkedBelow(old(rects), StartRects.LastIdx(old(rects)) as int + 1)
    {
      ghost var r0 := rects;
      var last := StartRects.LastIdx(rects);
      for j := 0 to last as int + 1
        invariant rects == MarkedBelow(r0, j) && StartRects.Valid(rects)
      {
        MarkStep(r0, j as u32);
        if StartRects.IsOk(StartRects.Get(rects, j as u32)) {
          RemoveStartRect(j as u32);
        }
      }
    }

    /** The stored rectangles, numbered from 0 up to the stored count, are added again. */
    method LoadPresetRects(o: map<string, string>)
      requires StartRects.Valid(rects)
      modifies this`rects
      ensures StartRects.Valid(rects)
      ensures rects == Presets.LoadRects(old(rects), o, U32(ParseLong(Presets.Lookup(o, "numrects"))))
    {
      var rectcount := U32(ParseLong(Presets.Lookup(o, "numrects")));
      for n := 0 to rectcount
        invariant rects == Presets.LoadRects(old(rects), o, n) && StartRects.Valid(rects)
      {
        var ally := I32(ParseLong(Presets.Lookup(o, Presets.RectKey(n, "ally"))));
        if ally != 0 {
          AddStartRect(U32(ally as int - 1), U32(ParseLong(Presets.Lookup(o, Presets.RectKey(n, "left")))),
                       U32(ParseLong(Presets.Lookup(o, Presets.RectKey(n, "top")))),
                       U32(ParseLong(Presets.Lookup(o, Presets.RectKey(n, "right")))),
                       U32(ParseLong(Presets.Lookup(o, Presets.RectKey(n, "bottom")))));
        }
      }
    }

    /** The restrictions are cleared and each stored `unit=count` token restricts its unit. */
    method LoadPresetRestrictions(o: map<string, string>)
      modifies this`restricted
      ensures restricted == Presets.DecodeRestrictions(Presets.Lookup(o, "restrictions"))
    {
      var ts := Tokens(Presets.Lookup(o, "restrictions"), '\t');
      UnrestrictAllUnits();
      for k := 0 to |ts|
        invariant Presets.ApplyRestrictions(restricted, ts[k..]) == Presets.ApplyRestrictions(map[], ts)
      {
        assert ts[k..][1..] == ts[k + 1..];
        RestrictUnit(WxBeforeLast(ts[k], '='), I32(ParseLong(AfterLast(ts[k], '='))));
      }
      assert ts[|ts|..] == [];
    }

    /** SaveOptionsPreset: the preset keeps the listed spelling of the name, or the name
        itself when new; every category is stored under it, the private one holding the
        host map, the rectangles (when start positions are chosen in game) and the unit
        restrictions. */
    method SaveOptionsPreset(name: string, lower: char -> char, store: SettingsStore.Store)
      returns (stored: SettingsStore.Store)
      requires ChoosesStartPositions(options) ==> 0xFFFF_FFFF !in rects
      modifies this`preset
      ensures preset == Presets.SaveName(store.presetList, name, lower)
      ensures stored == StoreCategories(store, preset, SavedCategories(options, hostMap.name, rects, restricted))
    {
      preset := Presets.FixPresetName(store.presetList, name, lower);
      if preset == "" {
        preset := name;
      }
      stored := StoreOptions(preset, store);
    }

    /** The loop over the categories, each stored under preset p in order. */
    method StoreOptions(p: string, store: SettingsStore.Store) returns (stored: SettingsStore.Store)
      requires ChoosesStartPositions(options) ==> 0xFFFF_FFFF !in rects
      ensures stored == StoreCategories(store, p, SavedCategories(options, hostMap.name, rects, restricted))
    {
      ghost var cs := SavedCategories(options, hostMap.name, rects, restricted);
      stored := store;
      for i := 0 to LastOption
        invariant stored == StoreCategories(store, p, cs[..i])
      {
        StoreCategoriesSnoc(store, p, cs, i);
        var o;
        if i != PrivateOptions {
          o := Category(options, i);
        } else {
          o := PrivateOptionsMap();
        }
        assert o == cs[i];
        stored := SettingsStore.SetHostingPreset(stored, p, i, o);
      }
      assert cs[..LastOption] == cs;
    }

    /** The private category as SaveOptionsPreset writes it. */
    method PrivateOptionsMap() returns (o: map<string, string>)
      requires ChoosesStartPositions(options) ==> 0xFFFF_FFFF !in rects
      ensures o == Presets.PrivatePreset(hostMap.name, rects, restricted, ChoosesStartPositions(options))
    {
      o := map["mapname" := hostMap.name];
      var validrectcount := 0;
      if ParseLong(Presets.Lookup(Category(options, EngineOption), "startpostype")) == StartPosChoose {
        o, validrectcount := SaveRects(o, rects);
      } else {
        assert o + map[] == o;
      }
      o := o["numrects" := IntToString(validrectcount)];
      var s := RestrictionsString();
      o := o["restrictions" := s];
    }

    /** Each rectangle in use, up to the last ally, is written under the next free number. */
    static method SaveRects(o0: map<string, string>, rects: StartRects.Rects) returns (o: map<string, string>, count: nat)
      requires 0xFFFF_FFFF !in rects
      ensures o == o0 + Presets.SavedRects(rects, Presets.SavedAllies(rects))
      ensures count == |Presets.SavedAllies(rects)|
    {
      o, count := o0, 0;
      var boxcount := StartRects.LastIdx(rects);
      ghost var allies: seq<u32> := [];
      for boxnum := 0 to boxcount as int + 1
        invariant allies == Presets.OkAllies(rects, boxnum)
        invariant o == o0 + Presets.SavedRects(rects, allies) && count == |allies|
      {
        Presets.SaveRectStep(o0, rects, boxnum);
        var rect := StartRects.Get(rects, boxnum as u32);
        if StartRects.IsOk(rect) {
          o := WriteRect(o, rect, count);
          count := count + 1;
        }
        allies := Presets.OkAllies(rects, boxnum + 1);
      }
    }

    /** The five entries of one saved rectangle, numbered n; the ally is stored one higher. */
    static method WriteRect(o0: map<string, string>, rect: StartRects.StartRect, n: nat) returns (o: map<string, string>)
      ensures o == o0 + Presets.RectEntries(rect, n)
    {
      Presets.WriteRectEntries(o0, rect, n);
      o := o0[Presets.RectKey(n, "ally") := IntToString(U32(rect.ally + 1))];
      o := o[Presets.RectKey(n, "left") := IntToString(rect.left)];
      o := o[Presets.RectKey(n, "top") := IntToString(rect.top)];
      o := o[Presets.RectKey(n, "bottom") := IntToString(rect.bottom)];
      o := o[Presets.RectKey(n, "right") := IntToString(rect.right)];
    }

    /** The restrictions as one string of tab-terminated `unit=count` tokens, in unit order. */
    method RestrictionsString() returns (s: string)
      ensures s == Presets.EncodeRestrictions(restricted)
    {
      s := "";
      var rest := restricted;
      while rest != map[]
        invariant s + Presets.EncodeRestrictions(rest) == Presets.EncodeRestrictions(restricted)
        decreases |rest|
      {
        Presets.EncodeStep(s, rest);
        var k := LeastKey(rest.Keys);
        s := s + Presets.RestrictionToken(k, rest[k]) + "\t";
        rest := rest - {k};
      }
    }

    /** DeletePreset: the listed preset of that name is dropped from the store, and stops
        being the current one. */
    method DeletePreset(name: string, lower: char -> char, store: SettingsStore.Store) returns (stored: SettingsStore.Store)
      modifies this`preset
      ensures var p := Presets.FixPresetName(store.presetList, name, lower);
        preset == (if old(preset) == p then "" else old(preset))
        && stored == SettingsStore.DeletePreset(store, p)
    {
      var p := Presets.FixPresetName(store.presetList, name, lower);
      if preset == p {
        preset := "";
      }
      stored := SettingsStore.DeletePreset(store, p);
    }

    // ------------------------------------------------------------ misc

    method SetProxy(value: string)
      modifies this`opts
      ensures opts == old(opts).(proxyHost := value)
    {
      opts := opts.(proxyHost := value);
    }

    method SetInGame(ingame: bool, now: int)
      modifies this`inGame, this`startTime
      ensures inGame == ingame && startTime == (if ingame then now else 0)
    {
      inGame := ingame;
      if inGame {
        startTime := now;
      } else {
        startTime := 0;
      }
    }

    /** GetBattleRunningTime: seconds since the game started, 0 when not in game or when
        the start time is unknown. */
    function GetBattleRunningTime(now: int): (t: int)
      reads this`inGame, this`startTime
      ensures !inGame || startTime == 0 ==> t == 0
      ensures inGame && startTime != 0 ==> startTime + t == now
    {
      if !inGame then 0 else if startTime == 0 then 0 else now - startTime
    }

    /** AddUserFromDemo: the user is marked as coming from the demo, kept among the demo
        users and listed. */
    method AddUserFromDemo(u: User)
      modifies this`demoUsers, this`users
      ensures var d := User(u.nick, u.status.(isFromDemo := true));
        demoUsers == old(demoUsers)[u.nick := d] && users == AddUser(old(users), d)
      ensures InNickOrder(old(users)) ==> InNickOrder(users)
    {
      var d := User(u.nick, u.status.(isFromDemo := true));
      if InNickOrder(users) {
        AddUserInNickOrder(users, d);
      }
      demoUsers := demoUsers[u.nick := d];
      users := AddUser(users, d);
    }
    // ------------------------------------------------------------ users joining

    /** What OnUserAdded(u) does: u is listed as a player that is neither ready nor
        synced; when the local user hosts a played battle, a human gets the lowest free
        team and ally and the free colour; when the local user hosts and u has no start
        position, u gets the map's first free one; u joins its team and ally, and a human
        starts waiting to be ready. */
    twostate predicate AddedAs(u: User, freeColour: Colour, now: int, index: Unitsync.Index)
      reads this
    {
      var reset := Joining(u.status);
      var listed := AddUser(old(users), User(u.nick, reset));
      var founder := old(IsFounderMe());
      u.nick in Nicks(users) && u.nick in Nicks(listed)
      && var s := StatusOf(users, u.nick);
      users == UpdateStatus(listed, u.nick, s)
      && SlotsAssigned(listed, me, u.nick, reset, s.(pos := reset.pos), freeColour,
                       !IsBot(reset) && founder && old(battleType) == Played)
      && PositionAssigned(index, old(hostMap), old(mapLoaded), old(localMap), mapLoaded, localMap, listed,
                          s.(pos := reset.pos), s, founder && (reset.pos.x < 0 || reset.pos.y < 0))
      && teamsSizes == Occupancy.Joined(old(teamsSizes), s.team)
      && allySizes == Occupancy.Joined(old(allySizes), s.ally)
      && readyUp == (if IsBot(reset) then old(readyUp) else old(readyUp)[u.nick := now])
    }

    /** OnUserAdded. The free colour (GetFreeColour) is an input. The source assigns the
        team before asking for the free ally; GetFreeAlly does not look at teams, so both
        are computed on the same list here. A user that has just been reset never is a
        spectator, ready or synced, so the counters are not touched. */
    method OnUserAdded(u: User, freeColour: Colour, now: int, index: Unitsync.Index)
      requires Valid()
      modifies this`users, this`teamsSizes, this`allySizes, this`readyUp, this`localMap, this`mapLoaded
      ensures Valid() && AddedAs(u, freeColour, now, index)
    {
      var reset := Joining(u.status);
      var s := Place(u.nick, reset, freeColour, index);
      Seat(u.nick, s, now);
    }

    /** The list part of OnUserAdded: the reset user is listed in nick order, then given its slots
        and, when the host must choose one, a start position. */
    method Place(nick: string, reset: BattleStatus, freeColour: Colour, index: Unitsync.Index)
      returns (s: BattleStatus)
      requires UniqueNicks(users) && InNickOrder(users)
      modifies this`users, this`localMap, this`mapLoaded
      ensures var listed := AddUser(old(users), User(nick, reset));
        nick in Nicks(listed) && nick in Nicks(users) && StatusOf(users, nick) == s
        && UniqueNicks(users) && InNickOrder(users) && users == UpdateStatus(listed, nick, s)
        && SlotsAssigned(listed, me, nick, reset, s.(pos := reset.pos), freeColour,
                         !IsBot(reset) && IsFounderMe() && battleType == Played)
        && PositionAssigned(index, hostMap, old(mapLoaded), old(localMap), mapLoaded, localMap, listed,
                            s.(pos := reset.pos), s, IsFounderMe() && (reset.pos.x < 0 || reset.pos.y < 0))
    {
      AddUserInNickOrder(users, User(nick, reset));
      users := AddUser(users, User(nick, reset));
      ghost var listed := users;
      var s1 := AssignSlots(nick, reset, freeColour);
      s := AssignPosition(nick, s1, index, listed);
      assert s.(pos := reset.pos) == s1;
      assert nick in Nicks(users) && StatusOf(users, nick) == s;
    }

    /** The bookkeeping part of OnUserAdded: the user's team and ally gain a member, and a
        human user's ready-up time starts now. */
    method Seat(nick: string, s: BattleStatus, now: int)
      requires Occupancy.Valid(teamsSizes) && Occupancy.Valid(allySizes)
      modifies this`teamsSizes, this`allySizes, this`readyUp
      ensures Occupancy.Valid(teamsSizes) && Occupancy.Valid(allySizes)
      ensures teamsSizes == Occupancy.Joined(old(teamsSizes), s.team)
      ensures allySizes == Occupancy.Joined(old(allySizes), s.ally)
      ensures readyUp == (if IsBot(s) then old(readyUp) else old(readyUp)[nick := now])
    {
      PlayerJoinedAlly(s.ally);
      PlayerJoinedTeam(s.team);
      if !IsBot(s) {
        readyUp := readyUp[nick := now];
      }
    }

    /** The team, ally and colour part of OnUserAdded. */
    method AssignSlots(nick: string, reset: BattleStatus, freeColour: Colour) returns (s: BattleStatus)
      requires nick in Nicks(users) && StatusOf(users, nick) == reset && UniqueNicks(users)
      modifies this`users
      ensures users == UpdateStatus(old(users), nick, s) && s.pos == reset.pos
      ensures SlotsAssigned(old(users), me, nick, reset, s, freeColour, !IsBot(reset) && IsFounderMe() && battleType == Played)
    {
      s := reset;
      if !IsBot(s) && IsFounderMe() && battleType == Played {
        var team := GetFreeTeam(nick == me);
        var ally := GetFreeAlly(nick == me);
        s := s.(team := team, ally := ally, colour := freeColour);
      }
      users := UpdateStatus(users, nick, s);
    }

    /** The start position part of OnUserAdded. */
    method AssignPosition(nick: string, s0: BattleStatus, index: Unitsync.Index, ghost listed: seq<User>)
      returns (s: BattleStatus)
      requires nick in Nicks(listed) && users == UpdateStatus(listed, nick, s0)
      requires StatusOf(listed, nick).spectator == s0.spectator && StatusOf(listed, nick).pos == s0.pos
      modifies this`users, this`localMap, this`mapLoaded
      ensures users == UpdateStatus(listed, nick, s)
      ensures PositionAssigned(index, hostMap, old(mapLoaded), old(localMap), mapLoaded, localMap, listed, s0, s,
                               IsFounderMe() && (s0.pos.x < 0 || s0.pos.y < 0))
    {
      s := s0;
      if IsFounderMe() && (s.pos.x < 0 || s.pos.y < 0) {
        s := TakeFreePosition(nick, s0, index, listed);
      }
    }

    /** The host places a user without a position on the first free start position. */
    method TakeFreePosition(nick: string, s0: BattleStatus, index: Unitsync.Index, ghost listed: seq<User>)
      returns (s: BattleStatus)
      requires nick in Nicks(listed) && users == UpdateStatus(listed, nick, s0)
      requires StatusOf(listed, nick).spectator == s0.spectator && StatusOf(listed, nick).pos == s0.pos
      modifies this`users, this`localMap, this`mapLoaded
      ensures users == UpdateStatus(listed, nick, s)
      ensures PositionAssigned(index, hostMap, old(mapLoaded), old(localMap), mapLoaded, localMap, listed, s0, s, true)
    {
      var pos := GetFreePosition(index);
      Allocators.FreeAfterUpdate(localMap.positions, listed, nick, s0, localMap.width, localMap.height, pos);
      UpdateStatusTwice(listed, nick, s0, s0.(pos := pos));
      PlacedFree(index, hostMap, old(mapLoaded), old(localMap), mapLoaded, localMap, listed, s0, pos);
      s := s0.(pos := pos);
      users := UpdateStatus(users, nick, s);
    }

    /** OnBotAdded: the bot is recorded among the bots, its new user's status is updated
        with the given one, and it is added as any user. */
    method OnBotAdded(nick: string, status: BattleStatus, freeColour: Colour, now: int, index: Unitsync.Index)
      requires Valid()
      modifies this`bots, this`users, this`teamsSizes, this`allySizes, this`readyUp, this`localMap, this`mapLoaded
      ensures Valid() && bots == old(bots) + {nick}
      ensures AddedAs(User(nick, Merged(NewStatus, status)), freeColour, now, index)
    {
      bots := bots + {nick};
      OnUserAdded(User(nick, Merged(NewStatus, status)), freeColour, now, index);
    }

    // ------------------------------------------------------------ status updates

    /** OnUserBattleStatusUpdated: the new status is merged into the user's and every
        aggregate is recounted from the list; the spectator count change is announced by the host;
        the ready-up map follows the user's new readiness. */
    method OnUserBattleStatusUpdated(nick: string, status: BattleStatus, now: int)
      requires Valid() && nick in Nicks(users)
      modifies this`users, this`opts, this`playersSync, this`playersReady, this`playersOk,
               this`teamsSizes, this`allySizes, this`events, this`readyUp
      ensures Valid()
      ensures users == UpdateStatus(old(users), nick, Merged(StatusOf(old(users), nick), status))
      ensures opts == old(opts).(spectators := Roster.Spectators(users))
      ensures playersReady == Roster.ReadyAsRecounted(users) == 0
      ensures playersSync == Roster.SyncedPlayers(users) && playersOk == Roster.OkPlayers(users)
      ensures teamsSizes == Roster.RecountedSizes(users, false) && allySizes == Roster.RecountedSizes(users, true)
      ensures events == old(events) + (if U32(old(opts.spectators)) != U32(Roster.Spectators(users)) && old(IsFounderMe())
                                       then [HiSpectators] else [])
      ensures readyUp == ReadyUpAfter(old(readyUp), nick, status, now)
    {
      var oldSpectators := opts.spectators;
      ghost var updated := UpdateStatus(users, nick, Merged(StatusOf(users, nick), status));
      StoreAndRecount(nick, status);
      assert users == updated;
      if U32(oldSpectators) != U32(opts.spectators) {
        if IsFounderMe() {
          events := events + [HiSpectators];
        }
      }
      TrackReadyUp(nick, status, now);
    }

    /** The new status is merged into the user's, then every aggregate is recounted. */
    method StoreAndRecount(nick: string, status: BattleStatus)
      requires Valid() && nick in Nicks(users)
      modifies this`users, this`opts, this`playersSync, this`playersReady, this`playersOk,
               this`teamsSizes, this`allySizes
      ensures Valid()
      ensures users == UpdateStatus(old(users), nick, Merged(StatusOf(old(users), nick), status))
      ensures opts == old(opts).(spectators := Roster.Spectators(users))
      ensures playersReady == Roster.ReadyAsRecounted(users) == 0
      ensures playersSync == Roster.SyncedPlayers(users) && playersOk == Roster.OkPlayers(users)
      ensures teamsSizes == Roster.RecountedSizes(users, false) && allySizes == Roster.RecountedSizes(users, true)
    {
      users := UpdateStatus(users, nick, Merged(StatusOf(users, nick), status));
      Recount();
    }

    /** The recount part of OnUserBattleStatusUpdated: every aggregate is cleared and
        rebuilt by visiting the users in order. */
    method Recount()
      modifies this`opts, this`playersSync, this`playersReady, this`playersOk, this`teamsSizes, this`allySizes
      ensures opts == old(opts).(spectators := Roster.Spectators(users))
      ensures playersReady == Roster.ReadyAsRecounted(users) == 0
      ensures playersSync == Roster.SyncedPlayers(users) && playersOk == Roster.OkPlayers(users)
      ensures teamsSizes == Roster.RecountedSizes(users, false) && allySizes == Roster.RecountedSizes(users, true)
      ensures Occupancy.Valid(teamsSizes) && Occupancy.Valid(allySizes)
    {
      opts := opts.(spectators := 0);
      playersSync := 0;
      playersReady := 0;
      playersOk := 0;
      teamsSizes := map[];
      allySizes := map[];
      for i := 0 to |users|
        invariant opts == old(opts).(spectators := Roster.Spectators(users[..i]))
        invariant playersSync == Roster.SyncedPlayers(users[..i])
        invariant playersReady == Roster.ReadyAsRecounted(users[..i])
        invariant playersOk == Roster.OkPlayers(users[..i])
        invariant teamsSizes == Roster.RecountedSizes(users[..i], false)
        invariant allySizes == Roster.RecountedSizes(users[..i], true)
      {
        Roster.RecountStep(users, i);
        CountUser(users[i].status);
      }
      assert users[..|users|] == users;
      Roster.RecountedReadyIsZero(users);
      Roster.RecountedSizesMeaning(users, false);
      Roster.RecountedSizesMeaning(users, true);
    }

    /** One step of the recount: a spectator bumps the spectator count; an active human
        bumps the sync and ok counts as its state says, joins its team and ally, and bumps
        the ready count only when it is ready and, against its own branch, a spectator. */
    method CountUser(s: BattleStatus)
      modifies this`opts, this`playersSync, this`playersReady, this`playersOk, this`teamsSizes, this`allySizes
      ensures opts == old(opts).(spectators := old(opts.spectators) + (if s.spectator then 1 else 0))
      ensures playersSync == old(playersSync) + (if Roster.ActiveHuman(s) && Synced(s) then 1 else 0)
      ensures playersReady == old(playersReady) + (if Roster.ActiveHuman(s) && s.ready && s.spectator then 1 else 0)
      ensures playersOk == old(playersOk) + (if Roster.ActiveHuman(s) && s.ready && Synced(s) then 1 else 0)
      ensures teamsSizes == (if Roster.ActiveHuman(s) then Occupancy.Joined(old(teamsSizes), s.team) else old(teamsSizes))
      ensures allySizes == (if Roster.ActiveHuman(s) then Occupancy.Joined(old(allySizes), s.ally) else old(allySizes))
    {
      if s.spectator {
        opts := opts.(spectators := opts.spectators + 1);
      }
      if !IsBot(s) {
        if !s.spectator {
          // the ready count is bumped only for a player that is also a spectator
          playersReady := playersReady + (if s.ready && s.spectator then 1 else 0);
          if Synced(s) {
            playersSync := playersSync + 1;
          }
          if s.ready && Synced(s) {
            playersOk := playersOk + 1;
          }
          PlayerJoinedTeam(s.team);
          PlayerJoinedAlly(s.ally);
        }
      }
    }

    /** The ready-up part of OnUserBattleStatusUpdated: a human that became ready and
        synced, or a spectator, leaves the map; a human player that is not both gets an
        entry stamped now unless it has one. */
    method TrackReadyUp(nick: string, status: BattleStatus, now: int)
      modifies this`readyUp
      ensures readyUp == ReadyUpAfter(old(readyUp), nick, status, now)
    {
      if !IsBot(status) {
        if (status.ready && Synced(status)) || status.spectator {
          if nick in readyUp {
            readyUp := readyUp - {nick};
          }
        }
        if (!status.ready || !Synced(status)) && !status.spectator {
          if nick !in readyUp {
            readyUp := readyUp[nick := now];
          }
        }
      }
    }

    // ------------------------------------------------------------ readiness

    /** IsEveryoneReady as written: it inspects only the first GetNumPlayers() users,
        that is as many as there are humans, while the bots are listed among them, so the
        last users are never looked at (Roster.PrefixMissesLastUsers). */
    method IsEveryoneReady() returns (r: bool)
      requires NumPlayers() as int <= |users|
      ensures r <==> Roster.EveryoneReady(users, NumPlayers() as int, me)
    {
      for i := 0 to NumPlayers() as int
        invariant Roster.EveryoneReady(users, i, me)
      {
        var s := users[i].status;
        if IsBot(s) {
          continue;
        }
        if s.spectator {
          continue;
        }
        if users[i].nick == me {
          continue;
        }
        if !s.ready {
          return false;
        }
        if !Synced(s) {
          return false;
        }
      }
      return true;
    }

    /** IsEveryoneReady as meant: every human player in the list other than me is ready
        and synced. */
    method IsEveryoneReadyCorrected() returns (r: bool)
      ensures r <==> Roster.EveryoneReady(users, |users|, me)
    {
      for i := 0 to |users|
        invariant Roster.EveryoneReady(users, i, me)
      {
        var s := users[i].status;
        if IsBot(s) {
          continue;
        }
        if s.spectator {
          continue;
        }
        if users[i].nick == me {
          continue;
        }
        if !s.ready {
          return false;
        }
        if !Synced(s) {
          return false;
        }
      }
      return true;
    }

    /** ShouldAutoStart: not in game, full or locked, and everyone ready by IsEveryoneReady
        as written. The counts are unsigned. */
    method ShouldAutoStart() returns (r: bool)
      requires !inGame && (opts.locked || NumActivePlayers() >= U32(opts.maxPlayers)) ==>
        NumPlayers() as int <= |users|
      ensures r <==> !inGame && (opts.locked || NumActivePlayers() >= U32(opts.maxPlayers))
                     && Roster.EveryoneReady(users, NumPlayers() as int, me)
    {
      if inGame {
        return false;
      }
      if !opts.locked && NumActivePlayers() < U32(opts.maxPlayers) {
        return false;
      }
      r := IsEveryoneReady();
    }

    /** ShouldAutoStart as meant: readiness checked over the whole list. */
    method ShouldAutoStartIntended() returns (r: bool)
      ensures r <==> !inGame && (opts.locked || NumActivePlayers() >= U32(opts.maxPlayers))
                     && Roster.EveryoneReady(users, |users|, me)
    {
      if inGame {
        return false;
      }
      if !opts.locked && NumActivePlayers() < U32(opts.maxPlayers) {
        return false;
      }
      r := IsEveryoneReadyCorrected();
    }

    // ------------------------------------------------------------ users leaving

    /** What OnUserRemoved(nick) does. Another user leaves its team and ally if it played,
        the ready/sync counters lose a human player, the host counts and announces a
        leaving spectator, and the user is unlisted (and forgotten as a bot). When the
        local user leaves, that happens to it, and in between every bot is removed the
        same way and the rectangles, occupancy and counters are cleared. */
    twostate predicate RemovedAs(nick: string)
      reads this
    {
      old(nick in Nicks(users)) &&
      var s := old(StatusOf(users, nick));
      var founder := old(IsFounderMe());
      var leavingSpectator := founder && s.spectator;
      var human := Roster.ActiveHuman(s);
      var specs := old(opts.spectators) - (if leavingSpectator then 1 else 0);
      var announced := old(events) + (if leavingSpectator then [HiSpectators] else []);
      if nick != me then
        users == RemoveNick(old(users), nick)
        && bots == (if IsBot(s) then old(bots) - {nick} else old(bots))
        && teamsSizes == (if s.spectator then old(teamsSizes) else Occupancy.Left(old(teamsSizes), s.team))
        && allySizes == (if s.spectator then old(allySizes) else Occupancy.Left(old(allySizes), s.ally))
        && playersReady == old(playersReady) - (if human && s.ready then 1 else 0)
        && playersSync == old(playersSync) - (if human && Synced(s) then 1 else 0)
        && playersOk == old(playersOk) - (if human && s.ready && Synced(s) then 1 else 0)
        && opts == old(opts).(spectators := specs)
        && events == announced
        && rects == old(rects) && isSelfIn == old(isSelfIn)
      else
        var listed := ResetMe(old(users), me);
        var botSpectators := if founder then SpectatorBots(listed) else 0;
        users == RemoveNick(NonBots(listed), me)
        && bots == old(bots) - BotNicks(listed)
        && teamsSizes == map[] && allySizes == map[] && rects == map[] && !isSelfIn
        && playersReady == 0 && playersSync == 0 && playersOk == 0
        && opts == old(opts).(spectators := specs - botSpectators)
        && events == announced + Repeat(HiSpectators, botSpectators)
    }

    /** The first half of OnUserRemoved: leaving the occupancy and the counters. */
    method Withdraw(s: BattleStatus)
      modifies this`teamsSizes, this`allySizes, this`playersReady, this`playersSync, this`playersOk,
               this`opts, this`events
      ensures teamsSizes == (if s.spectator then old(teamsSizes) else Occupancy.Left(old(teamsSizes), s.team))
      ensures allySizes == (if s.spectator then old(allySizes) else Occupancy.Left(old(allySizes), s.ally))
      ensures var human := Roster.ActiveHuman(s);
        playersReady == old(playersReady) - (if human && s.ready then 1 else 0)
        && playersSync == old(playersSync) - (if human && Synced(s) then 1 else 0)
        && playersOk == old(playersOk) - (if human && s.ready && Synced(s) then 1 else 0)
      ensures var leaving := old(IsFounderMe()) && s.spectator;
        opts == old(opts).(spectators := old(opts.spectators) - (if leaving then 1 else 0))
        && events == old(events) + (if leaving then [HiSpectators] else [])
    {
      if !s.spectator {
        PlayerLeftTeam(s.team);
        PlayerLeftAlly(s.ally);
      }
      if !s.spectator && !IsBot(s) {
        if s.ready {
          playersReady := playersReady - 1;
        }
        if Synced(s) {
          playersSync := playersSync - 1;
        }
        if s.ready && Synced(s) {
          playersOk := playersOk - 1;
        }
      }
      if IsFounderMe() && s.spectator {
        opts := opts.(spectators := opts.spectators - 1);
        events := events + [HiSpectators];
      }
    }

    /** The last step of OnUserRemoved: unlisting the user, and forgetting a bot. */
    method Drop(nick: string, wasBot: bool)
      modifies this`users, this`bots
      ensures users == RemoveNick(old(users), nick)
      ensures bots == if wasBot then old(bots) - {nick} else old(bots)
      ensures InNickOrder(old(users)) ==> InNickOrder(users)
    {
      if InNickOrder(users) {
        RemoveNickInNickOrder(users, nick);
      }
      users := RemoveNick(users, nick);
      if wasBot && nick in bots {
        bots := bots - {nick};
      }
    }

    /** OnUserRemoved for a user other than the local one. */
    method RemoveOther(nick: string)
      requires Valid() && nick in Nicks(users) && nick != me
      modifies this`users, this`bots, this`teamsSizes, this`allySizes, this`playersReady, this`playersSync,
               this`playersOk, this`opts, this`events
      ensures Valid() && RemovedAs(nick)
    {
      var s := StatusOf(users, nick);
      Withdraw(s);
      Drop(nick, IsBot(s));
    }

    /** OnUserRemoved. For the local user it runs OnSelfLeftBattle in between, which
        needs the local user not to be a bot (a bot "me" would remove itself again
        without end). */
    method OnUserRemoved(nick: string)
      requires Valid() && nick in Nicks(users) && (nick == me ==> MeNotBot())
      modifies this`users, this`bots, this`isSelfIn, this`teamsSizes, this`allySizes, this`playersReady,
               this`playersSync, this`playersOk, this`opts, this`events, this`rects
      ensures Valid() && RemovedAs(nick)
    {
      if nick != me {
        RemoveOther(nick);
      } else {
        RemoveMe();
      }
    }

    /** OnUserRemoved for the local user. */
    method RemoveMe()
      requires Valid() && me in Nicks(users) && MeNotBot()
      modifies this`users, this`bots, this`isSelfIn, this`teamsSizes, this`allySizes, this`playersReady,
               this`playersSync, this`playersOk, this`opts, this`events, this`rects
      ensures Valid() && RemovedAs(me)
    {
      var s := StatusOf(users, me);
      WithdrawAndLeave(s);
      Drop(me, IsBot(s));
    }

    /** OnUserRemoved for the local user, up to dropping it from the list: leaving the
        occupancy and the counters, then OnSelfLeftBattle. */
    method WithdrawAndLeave(s: BattleStatus)
      requires Valid() && me in Nicks(users) && MeNotBot() && s == StatusOf(users, me)
      modifies this`users, this`bots, this`isSelfIn, this`teamsSizes, this`allySizes, this`playersReady,
               this`playersSync, this`playersOk, this`opts, this`events, this`rects
      ensures Valid() && me in Nicks(users) && !IsBot(s)
      ensures var listed := ResetMe(old(users), me);
        var leavingSpectator := old(IsFounderMe()) && s.spectator;
        var botSpectators := if old(IsFounderMe()) then SpectatorBots(listed) else 0;
        users == NonBots(listed) && bots == old(bots) - BotNicks(listed)
        && teamsSizes == map[] && allySizes == map[] && rects == map[] && !isSelfIn
        && playersReady == 0 && playersSync == 0 && playersOk == 0
        && opts == old(opts).(spectators := old(opts.spectators) - (if leavingSpectator then 1 else 0) - botSpectators)
        && events == old(events) + (if leavingSpectator then [HiSpectators] else []) + Repeat(HiSpectators, botSpectators)
    {
      ghost var founder := IsFounderMe();
      ghost var listed := ResetMe(users, me);
      Withdraw(s);
      assert IsFounderMe() == founder && users == old(users);
      OnSelfLeftBattle();
    }

    /** KickPlayer: the host may remove anybody, anybody may remove a bot. */
    method KickPlayer(nick: string)
      requires Valid() && nick in Nicks(users) && (nick == me ==> MeNotBot())
      modifies this`users, this`bots, this`isSelfIn, this`teamsSizes, this`allySizes, this`playersReady,
               this`playersSync, this`playersOk, this`opts, this`events, this`rects
      ensures Valid()
      ensures if old(IsFounderMe()) || IsBot(old(StatusOf(users, nick))) then RemovedAs(nick) else unchanged(this)
    {
      if IsFounderMe() || IsBot(StatusOf(users, nick)) {
        OnUserRemoved(nick);
      }
    }

    /** What OnSelfLeftBattle does: the local user is reset to playing, every bot is
        removed as OnUserRemoved removes it (the host counting and announcing each
        spectator bot), and the rectangles, occupancy and counters are cleared. */
    twostate predicate SelfLeftAs()
      reads this
    {
      var listed := ResetMe(old(users), me);
      var botSpectators := if old(IsFounderMe()) then SpectatorBots(listed) else 0;
      users == NonBots(listed) && bots == old(bots) - BotNicks(listed) && !isSelfIn
      && teamsSizes == map[] && allySizes == map[] && rects == map[]
      && playersReady == 0 && playersSync == 0 && playersOk == 0
      && opts == old(opts).(spectators := old(opts.spectators) - botSpectators)
      && events == old(events) + Repeat(HiSpectators, botSpectators)
    }

    method OnSelfLeftBattle()
      requires Valid() && MeNotBot()
      modifies this`users, this`bots, this`isSelfIn, this`teamsSizes, this`allySizes, this`playersReady,
               this`playersSync, this`playersOk, this`opts, this`events, this`rects
      ensures Valid() && SelfLeftAs()
    {
      ResetMeToPlaying();
      RemoveBotsAndClear();
    }

    /** The rest of OnSelfLeftBattle: the bots go, then the aggregates are cleared. */
    method RemoveBotsAndClear()
      requires Valid() && forall i :: 0 <= i < |users| && users[i].nick == me ==> !IsBot(users[i].status)
      modifies this`users, this`bots, this`teamsSizes, this`allySizes, this`playersReady,
               this`playersSync, this`playersOk, this`opts, this`events, this`rects
      ensures Valid()
      ensures var botSpectators := if old(IsFounderMe()) then SpectatorBots(old(users)) else 0;
        users == NonBots(old(users)) && bots == old(bots) - BotNicks(old(users))
        && teamsSizes == map[] && allySizes == map[] && rects == map[]
        && playersReady == 0 && playersSync == 0 && playersOk == 0
        && opts == old(opts).(spectators := old(opts.spectators) - botSpectators)
        && events == old(events) + Repeat(HiSpectators, botSpectators)
    {
      RemoveAllBots();
      ClearAggregates();
    }

    /** The start of OnSelfLeftBattle: the local user, if listed, stops spectating, and is
        no longer in the battle. */
    method ResetMeToPlaying()
      requires Valid() && MeNotBot()
      modifies this`users, this`isSelfIn
      ensures Valid() && users == ResetMe(old(users), me) && !isSelfIn
      ensures forall i :: 0 <= i < |users| && users[i].nick == me ==> !IsBot(users[i].status)
    {
      if me in Nicks(users) {
        users := UpdateStatus(users, me, StatusOf(users, me).(spectator := false));
      }
      isSelfIn := false;
      MeIsNoBot(users);
    }

    /** The end of OnSelfLeftBattle: no rectangles, no occupancy, no counts. */
    method ClearAggregates()
      modifies this`rects, this`teamsSizes, this`allySizes, this`playersReady, this`playersSync, this`playersOk
      ensures rects == map[] && teamsSizes == map[] && allySizes == map[]
      ensures playersReady == 0 && playersSync == 0 && playersOk == 0
    {
      ClearStartRects();
      teamsSizes := map[];
      allySizes := map[];
      playersReady := 0;
      playersSync := 0;
      playersOk := 0;
    }

    /** OnSelfLeftBattle's loop: every bot in the list is removed as OnUserRemoved
        removes it, in order. */
    method RemoveAllBots()
      requires Valid() && forall i :: 0 <= i < |users| && users[i].nick == me ==> !IsBot(users[i].status)
      modifies this`users, this`bots, this`teamsSizes, this`allySizes, this`playersReady, this`playersSync,
               this`playersOk, this`opts, this`events
      ensures Valid() && IsFounderMe() == old(IsFounderMe())
      ensures users == NonBots(old(users)) && bots == old(bots) - BotNicks(old(users))
      ensures var botSpectators := if old(IsFounderMe()) then SpectatorBots(old(users)) else 0;
        opts == old(opts).(spectators := old(opts.spectators) - botSpectators)
        && events == old(events) + Repeat(HiSpectators, botSpectators)
    {
      ghost var orig := users;
      var j := VisitAllUsers(orig, bots, opts, events, IsFounderMe());
      assert orig[..|orig|] == orig;
    }

    /** OnSelfLeftBattle's loop itself, from the original list to its end. */
    method VisitAllUsers(ghost orig: seq<User>, ghost bots0: set<string>, ghost opts0: BattleOptions,
                         ghost events0: seq<HostInfo>, ghost founder: bool)
      returns (j: nat)
      requires Valid() && IsFounderMe() == founder
      requires users == orig && bots == bots0 && opts == opts0 && events == events0
      requires forall i :: 0 <= i < |orig| && orig[i].nick == me ==> !IsBot(orig[i].status)
      modifies this`users, this`bots, this`teamsSizes, this`allySizes, this`playersReady, this`playersSync,
               this`playersOk, this`opts, this`events
      ensures Valid() && IsFounderMe() == founder
      ensures BotsRemovedUpTo(orig, bots0, opts0, events0, founder, |orig|, j)
    {
      ghost var k: nat := 0;
      j := 0;
      assert orig[..0] == [] && orig[0..] == orig;
      while j < |users|
        invariant Valid() && IsFounderMe() == founder
        invariant BotsRemovedUpTo(orig, bots0, opts0, events0, founder, k, j)
        decreases |orig| - k
      {
        j := VisitUser(j, orig, bots0, opts0, events0, founder, k);
        k := k + 1;
      }
      LoopDone(users, orig, k, j);
    }

    /** The state of OnSelfLeftBattle's loop once it has looked at the first k users of
        the original list: the bots among them are gone, each counted and announced,
        and j indexes the first user not yet looked at. */
    ghost predicate BotsRemovedUpTo(orig: seq<User>, bots0: set<string>, opts0: BattleOptions,
                                    events0: seq<HostInfo>, founder: bool, k: nat, j: nat)
      reads this
    {
      k <= |orig| &&
      var botSpectators := if founder then SpectatorBots(orig[..k]) else 0;
      users == NonBots(orig[..k]) + orig[k..] && j == |NonBots(orig[..k])|
      && bots == bots0 - BotNicks(orig[..k])
      && opts == opts0.(spectators := opts0.spectators - botSpectators)
      && events == events0 + Repeat(HiSpectators, botSpectators)
    }

    /** One pass of OnSelfLeftBattle's loop: a bot is removed and the index stays, any
        other user is stepped over. */
    method VisitUser(j: nat, ghost orig: seq<User>, ghost bots0: set<string>, ghost opts0: BattleOptions,
                     ghost events0: seq<HostInfo>, ghost founder: bool, ghost k: nat)
      returns (next: nat)
      requires Valid() && IsFounderMe() == founder
      requires BotsRemovedUpTo(orig, bots0, opts0, events0, founder, k, j) && j < |users|
      requires forall i :: 0 <= i < |orig| && orig[i].nick == me ==> !IsBot(orig[i].status)
      modifies this`users, this`bots, this`teamsSizes, this`allySizes, this`playersReady, this`playersSync,
               this`playersOk, this`opts, this`events
      ensures Valid() && IsFounderMe() == founder
      ensures BotsRemovedUpTo(orig, bots0, opts0, events0, founder, k + 1, next)
    {
      LookAt(users, orig, k, j);
      CountStep(bots, opts, events, orig, bots0, opts0, events0, founder, k);
      if IsBot(users[j].status) {
        RemoveBotAt(j);
        next := j;
      } else {
        next := j + 1;
      }
    }

    /** One pass of OnSelfLeftBattle's loop over a bot: OnUserRemoved on it. The list
        closes over the gap, so the loop looks at the same index again. */
    method RemoveBotAt(j: nat)
      requires Valid() && j < |users| && IsBot(users[j].status) && users[j].nick != me
      modifies this`users, this`bots, this`teamsSizes, this`allySizes, this`playersReady, this`playersSync,
               this`playersOk, this`opts, this`events
      ensures Valid() && IsFounderMe() == old(IsFounderMe())
      ensures users == old(users[..j] + users[j + 1..])
      ensures bots == old(bots) - {old(users[j].nick)}
      ensures var leaving := old(IsFounderMe()) && old(users[j].status.spectator);
        opts == old(opts).(spectators := old(opts.spectators) - (if leaving then 1 else 0))
        && events == old(events) + (if leaving then [HiSpectators] else [])
    {
      var u := users[j];
      StatusAt(users, j);
      RemoveNickAt(users, j);
      RemoveOther(u.nick);
    }

    /** In a list of distinct nicks where the listed local user is no bot, no entry named
        like the local user is a bot. */
    lemma MeIsNoBot(us: seq<User>)
      requires UniqueNicks(us) && (me in Nicks(us) ==> !IsBot(StatusOf(us, me)))
      ensures forall i :: 0 <= i < |us| && us[i].nick == me ==> !IsBot(us[i].status)
    {
      forall i | 0 <= i < |us| && us[i].nick == me ensures !IsBot(us[i].status) {
        assert me in Nicks(us);
        var x := IndexOfNick(us, me);
        assert x == i;
      }
    }
  }
}
