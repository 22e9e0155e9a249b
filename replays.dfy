/** The replay list: for every demo file, the start script and header facts read from
    the file, the map name and engine version read from its name, and the battle the
    script rebuilds. A demo header is little-endian: the format version at 16, the
    offset of the script at 20, the start time at 56, and the script length and game
    duration at 64 and 72, or 240 bytes further from version 5 on. */
module Replays {
  import opened Text
  import Allocators
  import Battle
  import opened Playback

  const VersionOffset := 16
  const HeaderSizeOffset := 20
  const TimeOffset := 56

  /** The path separator (SEP) on the platforms this model follows. */
  const Sep := '/'

  /** How far version 5 and later moved the script length and duration fields. */
  function Shift(version: int): nat {
    if version < 5 then 0 else 240
  }

  function LengthOffset(version: int): nat {
    64 + Shift(version)
  }

  function DurationOffset(version: int): nat {
    72 + Shift(version)
  }

  /** The duration field follows the length field by 8 bytes in every version; both sit
      at 64 and 72 before version 5 and 240 bytes further from then on. */
  lemma HeaderOffsets(version: int)
    ensures DurationOffset(version) == LengthOffset(version) + 8
    ensures version < 5 ==> LengthOffset(version) == 64 && DurationOffset(version) == 72
    ensures version >= 5 ==> LengthOffset(version) == 64 + 240 && DurationOffset(version) == 72 + 240
  {
  }

  /** replayVersion: the signed 32-bit field at 16, or 0 when the seek fails. */
  function Version(data: seq<bv8>, isOpen: bool): int {
    if isOpen then I32(Field(data, VersionOffset, 4)) else 0
  }

  /** The offset the script starts at, as the signed 32-bit field at 20. */
  function HeaderSize(data: seq<bv8>): int {
    I32(Field(data, HeaderSizeOffset, 4))
  }

  /** The script length: the low 4 bytes of the field (read into a zeroed 8-byte
      wxFileOffset), clamped into [0, file length]. */
  function ScriptLength(data: seq<bv8>, version: int): nat {
    Allocators.Clamp(Field(data, LengthOffset(version), 4), 0, |data|)
  }

  /** GetScriptFromReplay's result: nothing when the file is not open or the script
      offset is negative (a failed seek); otherwise ScriptLength bytes from the script
      offset, zero where they lie past the end of the file. */
  function ReplayScript(data: seq<bv8>, isOpen: bool, version: int): seq<bv8> {
    if !isOpen || HeaderSize(data) < 0 then []
    else Bytes(data, HeaderSize(data), ScriptLength(data, version))
  }

  /** Where GetScriptFromReplay leaves the file's cursor. */
  function ScriptCursor(data: seq<bv8>, isOpen: bool, version: int, pos0: nat): nat {
    if !isOpen then pos0
    else if HeaderSize(data) < 0 then LengthOffset(version) + |Slice(data, LengthOffset(version), 4)|
    else HeaderSize(data) + |Slice(data, HeaderSize(data), ScriptLength(data, version))|
  }

  /** The script is empty exactly when the file is not open, the script offset is
      negative, or the clamped length is zero; otherwise it has the clamped length, is
      never longer than the file, and holds the file's bytes from the script offset,
      which are all of data[h..h + length] when that range lies inside the file. */
  lemma ReplayScriptShape(data: seq<bv8>, isOpen: bool, version: int)
    ensures var s := ReplayScript(data, isOpen, version);
      (s == [] <==> !isOpen || HeaderSize(data) < 0 || ScriptLength(data, version) == 0)
      && |s| <= |data|
      && (isOpen && HeaderSize(data) >= 0 ==> |s| == ScriptLength(data, version))
    ensures var s := ReplayScript(data, isOpen, version); var h := HeaderSize(data);
      isOpen && h >= 0 && h + |s| <= |data| ==> s == data[h..h + |s|]
  {
    var s := ReplayScript(data, isOpen, version);
    var h := HeaderSize(data);
    if isOpen && h >= 0 && h + |s| <= |data| {
      assert forall k :: 0 <= k < |s| ==> s[k] == data[h..h + |s|][k];
    }
  }

  /** ReplayScript's bytes past the end of the file are zero. */
  lemma ReplayScriptZeroPastEnd(data: seq<bv8>, isOpen: bool, version: int, k: nat)
    requires k < |ReplayScript(data, isOpen, version)|
    requires HeaderSize(data) + k >= |data|
    ensures ReplayScript(data, isOpen, version)[k] == 0
  {
  }

  /** The name of the file, without its directory. */
  function FileName(path: string): string {
    AfterLast(path, Sep)
  }

  /** The engine version in a demo file name: after the last '_', before the last '.'. */
  function SpringVersionOf(fileName: string): string {
    BeforeLast(AfterLast(fileName, '_'), '.')
  }

  /** The map name in a demo file name: before the last '_' (all of it when there is none). */
  function MapNameOf(fileName: string): string {
    BeforeLast(fileName, '_')
  }

  /** A name laid out as prefix_version.ext, where neither version nor ext holds '_'
      and ext holds no '.', gives back prefix as the map name and version as the
      engine version. */
  lemma SplitReplayName(prefix: string, version: string, ext: string)
    requires '_' !in version && '_' !in ext && '.' !in ext
    ensures MapNameOf(prefix + "_" + version + "." + ext) == prefix
    ensures SpringVersionOf(prefix + "_" + version + "." + ext) == version
  {
    var tail := version + "." + ext;
    assert prefix + "_" + version + "." + ext == prefix + ['_'] + tail;
    Text.SplitAtLast(prefix, '_', tail);
    assert tail == version + ['.'] + ext;
    Text.SplitAtLast(version, '.', ext);
  }

  /** A file name under a directory is the part after the last separator. */
  lemma FileNameOfPath(dir: string, name: string)
    requires Sep !in name
    ensures FileName(dir + [Sep] + name) == name
  {
    Text.SplitAtLast(dir, Sep, name);
  }

  /** How GetReplayInfos ends for a path: it fails when the file does not exist or does
      not open, or its script is empty; it throws when GetBattleFromScript does; it
      fails when the file name does not parse as a date; otherwise the entry is kept. */
  function ReplayOutcome(env: Env, path: string): Outcome {
    if !Opens(env.fs, path) then Failed
    else
      var data := env.fs.files[path];
      var script := ReplayScript(data, true, Version(data, true));
      if script == [] then Failed
      else if !ScriptCompletes(env.parse, script) then Thrown
      else if env.clock.parseName(FileName(path)).None? then Failed
      else Ok
  }

  /** The script GetReplayInfos reads from the file at path (empty when it does not open). */
  function FileScript(env: Env, path: string): seq<bv8> {
    if Opens(env.fs, path) then ReplayScript(env.fs.files[path], true, Version(env.fs.files[path], true)) else []
  }

  /** The start time GetHeaderInfo reads from the file at path, as text. */
  function HeaderTime(env: Env, path: string): string
    requires Opens(env.fs, path)
  {
    env.clock.format(I64(Field(env.fs.files[path], TimeOffset, 8)))
  }

  /** The outcome of each file in turn. */
  function ReplayOutcomes(paths: seq<string>, env: Env): (os: seq<Outcome>)
    ensures |os| == |paths|
  {
    if paths == [] then [] else ReplayOutcomes(paths[..|paths| - 1], env) + [ReplayOutcome(env, paths[|paths| - 1])]
  }

  lemma {:induction false} ReplayOutcomeAt(paths: seq<string>, env: Env, i: nat)
    requires i < |paths|
    ensures ReplayOutcomes(paths, env)[i] == ReplayOutcome(env, paths[i])
    decreases |paths|
  {
    if i < |paths| - 1 {
      assert paths[..|paths| - 1][i] == paths[i];
      ReplayOutcomeAt(paths[..|paths| - 1], env, i);
    }
  }

  /** The fields GetReplayInfos fills from the path alone. */
  ghost predicate NamedAfter(g: StoredGame, path: string)
    reads g`kind, g`filename, g`springVersion, g`mapName, g.battle`playbackPath
  {
    var name := FileName(path);
    g.kind == Replay && g.filename == path && g.battle.playbackPath == path
    && g.springVersion == SpringVersionOf(name) && g.mapName == MapNameOf(name)
  }

  /** A replay entry read in full: named after its path, and read from its file. */
  ghost predicate ReadAsReplay(g: StoredGame, env: Env, path: string)
    reads g`kind, g`filename, g`springVersion, g`mapName, g`duration, g`size, g`modName, g`date,
          g`dateString, g.battle`playbackPath, g.battle`script, g.battle`hostMod, g.battle`battleType,
          g.battle`engineName, g.battle`engineVersion
  {
    NamedAfter(g, path) && ReadFromFile(g, env, path)
  }

  /** What a successful GetReplayInfos takes from the file and its name: the script,
      duration, size and date; the game from the rebuilt battle; a replay battle of the
      "spring" engine at the version the name gives. */
  ghost predicate ReadFromFile(g: StoredGame, env: Env, path: string)
    reads g`springVersion, g`duration, g`size, g`modName, g`date, g`dateString, g.battle`script,
          g.battle`hostMod, g.battle`battleType, g.battle`engineName, g.battle`engineVersion
  {
    Opens(env.fs, path)
    && var data := env.fs.files[path];
    var version := Version(data, true);
    var date := env.clock.parseName(FileName(path));
    g.battle.script == ReplayScript(data, true, version)
    && g.duration == I32(Field(data, DurationOffset(version), 4)) && g.size == |data|
    && g.modName == g.battle.hostMod.name && g.battle.battleType == Battle.Replay
    && g.battle.engineName == "spring" && g.battle.engineVersion == g.springVersion
    && date.Some? && g.date == date.value && g.dateString == env.clock.format(date.value)
  }

  /** The entries of a replay list: each is named after its file, and those whose file
      was read successfully are read in full. */
  ghost predicate Listed(rs: map<nat, StoredGame>, filenames: seq<string>, os: seq<Outcome>, env: Env)
    reads set j | j in rs :: rs[j], set j | j in rs :: rs[j].battle
  {
    forall j :: j in rs ==>
      j < |filenames| && j < |os| && rs[j].id == j && NamedAfter(rs[j], filenames[j])
      && (os[j] == Ok ==> ReadAsReplay(rs[j], env, filenames[j]))
  }

  /** An entry named after the i-th file, and read in full when that file was read
      successfully, may join the entries under key i. */
  lemma ListedAdd(rs: map<nat, StoredGame>, filenames: seq<string>, os: seq<Outcome>, env: Env,
                  i: nat, g: StoredGame)
    requires Listed(rs, filenames, os, env)
    requires i < |filenames| && i < |os| && g.id == i && NamedAfter(g, filenames[i])
    requires os[i] == Ok ==> ReadAsReplay(g, env, filenames[i])
    ensures Listed(rs[i := g], filenames, os, env)
  {
  }

  class ReplayList {
    var replays: map<nat, StoredGame>

    constructor ()
      ensures replays == map[]
    {
      replays := map[];
    }

    /** AddPlayback (IPlaybackList, not part of this model): a new entry under key i. */
    method AddPlayback(i: nat) returns (g: StoredGame)
      modifies this`replays
      ensures fresh(g) && fresh(g.battle) && g.id == i && g.battle.Valid()
      ensures replays == old(replays)[i := g]
    {
      g := new StoredGame(i);
      replays := replays[i := g];
    }

    /** RemovePlayback (IPlaybackList, not part of this model): drop the entry under key i. */
    method RemovePlayback(i: nat)
      modifies this`replays
      ensures replays == old(replays) - {i}
    {
      replays := replays - {i};
    }

    /** LoadPlaybacks: empty the list, then read each file into a new entry under its
        index and remove the entries whose reading failed. An exception from a file's
        script (`thrown`) ends the loop with that file's entry still listed. */
    method LoadPlaybacks(filenames: seq<string>, env: Env) returns (thrown: bool)
      modifies this`replays
      ensures thrown <==> Thrown in ReplayOutcomes(filenames, env)
      ensures replays.Keys == Kept(ReplayOutcomes(filenames, env))
      ensures Listed(replays, filenames, ReplayOutcomes(filenames, env), env)
    {
      ghost var os := ReplayOutcomes(filenames, env);
      replays := map[];
      thrown := false;
      var i := 0;
      while i < |filenames|
        invariant 0 <= i <= |filenames|
        invariant forall j :: 0 <= j < i ==> os[j] != Thrown
        invariant forall j: nat :: j in replays <==> j < i && os[j] != Failed
        invariant Listed(replays, filenames, os, env)
      {
        ReplayOutcomeAt(filenames, env, i);
        var outcome := LoadPlayback(i, filenames, os, env);
        if outcome == Thrown {
          KeptPrefix(os, i, replays.Keys);
          return true;
        }
        i := i + 1;
      }
      KeptPrefix(os, i, replays.Keys);
    }

    /** One turn of LoadPlaybacks: add an entry under key i, read the i-th file into it,
        and remove it again when the reading failed; the entries already listed stay as
        they were. */
    method LoadPlayback(i: nat, filenames: seq<string>, ghost os: seq<Outcome>, env: Env) returns (outcome: Outcome)
      requires i < |filenames| == |os| && os[i] == ReplayOutcome(env, filenames[i])
      requires i !in replays && Listed(replays, filenames, os, env)
      modifies this`replays
      ensures outcome == os[i]
      ensures forall j :: j in replays <==> j in old(replays) || (j == i && outcome != Failed)
      ensures Listed(replays, filenames, os, env)
    {
      ghost var listed := replays;
      var playback;
      outcome, playback := AddReplay(i, filenames[i], env);
      assert Listed(listed, filenames, os, env);
      if outcome == Failed {
        RemovePlayback(i);
        AddThenRemove(listed, i, playback);
      } else {
        ListedAdd(listed, filenames, os, env, i, playback);
      }
    }

    /** A new entry under key i, read from the file at path. */
    method AddReplay(i: nat, path: string, env: Env) returns (outcome: Outcome, playback: StoredGame)
      modifies this`replays
      ensures outcome == ReplayOutcome(env, path)
      ensures fresh(playback) && fresh(playback.battle) && replays == old(replays)[i := playback]
      ensures playback.id == i && NamedAfter(playback, path)
      ensures outcome == Ok ==> ReadAsReplay(playback, env, path)
    {
      playback := AddPlayback(i);
      outcome := GetReplayInfos(path, playback, env);
    }

    /** replayVersion: the format version at offset 16, 0 when the seek fails. */
    method ReplayVersion(replay: WxFile) returns (version: int)
      modifies replay
      ensures version == Version(replay.data, replay.isOpen)
      ensures replay.pos == (if replay.isOpen then VersionOffset + |Slice(replay.data, VersionOffset, 4)|
                             else old(replay.pos))
    {
      var r := replay.Seek(VersionOffset);
      if r == InvalidOffset {
        return 0;
      }
      var bytes := replay.Read(4);
      ReadField(replay.data, VersionOffset, 4, 4);
      version := I32(LE(Padded(bytes, 4)));
    }

    /** GetScriptFromReplay: read the script offset at 20 and the length field, clamp
        the length into the file's size, and read that many bytes from the script offset
        into a zero-filled buffer. */
    method GetScriptFromReplay(replay: WxFile, version: int) returns (script: seq<bv8>)
      modifies replay
      ensures script == ReplayScript(replay.data, replay.isOpen, version)
      ensures replay.pos == ScriptCursor(replay.data, replay.isOpen, version, old(replay.pos))
    {
      script := [];
      var ok, headerSize, scriptSize := ScriptBounds(replay, version);
      if !ok {
        return;
      }
      var r := replay.Seek(headerSize);
      if r == InvalidOffset {
        return;
      }
      var bytes := replay.Read(scriptSize);
      ReadBytes(replay.data, headerSize, scriptSize);
      script := Padded(bytes, scriptSize);
    }

    /** The first part of GetScriptFromReplay: the script offset at 20 and the length
        field, clamped into the file's size; `ok` is false when a seek fails. */
    method ScriptBounds(replay: WxFile, version: int) returns (ok: bool, headerSize: int, scriptSize: nat)
      modifies replay
      ensures ok == replay.isOpen
      ensures ok ==> headerSize == HeaderSize(replay.data) && scriptSize == ScriptLength(replay.data, version)
                     && replay.pos == LengthOffset(version) + |Slice(replay.data, LengthOffset(version), 4)|
      ensures !ok ==> replay.pos == old(replay.pos)
    {
      ok, headerSize, scriptSize := false, 0, 0;
      if !replay.IsOpened() {
        return;
      }
      var r := replay.Seek(HeaderSizeOffset);
      if r == InvalidOffset {
        return;
      }
      var bytes := replay.Read(4);
      ReadField(replay.data, HeaderSizeOffset, 4, 4);
      headerSize := I32(LE(Padded(bytes, 4)));
      var seek := 64 + (if version < 5 then 0 else 240);
      r := replay.Seek(seek);
      if r == InvalidOffset {
        return;
      }
      bytes := replay.Read(4);
      ReadField(replay.data, seek, 4, 8);
      scriptSize := Allocators.Clamp(LE(Padded(bytes, 8)), 0, replay.Length());
      ok := true;
    }

    /** GetHeaderInfo: the game's duration and the file's size, then the start time at
        56 formatted as text; each part is skipped when its seek fails. */
    method GetHeaderInfo(replay: WxFile, rep: StoredGame, version: int, clock: Clock)
      modifies replay, rep`duration, rep`size, rep`dateString
      ensures !replay.isOpen ==> replay.pos == old(replay.pos) && rep.duration == old(rep.duration)
                                 && rep.size == old(rep.size) && rep.dateString == old(rep.dateString)
      ensures replay.isOpen ==>
        rep.duration == I32(Field(replay.data, DurationOffset(version), 4)) && rep.size == |replay.data|
        && rep.dateString == clock.format(I64(Field(replay.data, TimeOffset, 8)))
        && replay.pos == TimeOffset + |Slice(replay.data, TimeOffset, 8)|
    {
      var ok := ReadDuration(replay, rep, version);
      if !ok {
        return;
      }
      ReadStartTime(replay, rep, clock);
    }

    /** The first part of GetHeaderInfo: the duration field and the file's size; false,
        with nothing changed, when the seek fails. */
    method ReadDuration(replay: WxFile, rep: StoredGame, version: int) returns (ok: bool)
      modifies replay, rep`duration, rep`size
      ensures ok == replay.isOpen
      ensures !ok ==> replay.pos == old(replay.pos) && rep.duration == old(rep.duration) && rep.size == old(rep.size)
      ensures ok ==> rep.duration == I32(Field(replay.data, DurationOffset(version), 4)) && rep.size == |replay.data|
    {
      var seek := 72 + (if version < 5 then 0 else 240);
      var r := replay.Seek(seek);
      if r == InvalidOffset {
        return false;
      }
      var bytes := replay.Read(4);
      ReadField(replay.data, seek, 4, 4);
      rep.duration := I32(LE(Padded(bytes, 4)));
      rep.size := replay.Length();
      return true;
    }

    /** The second part of GetHeaderInfo: the start time at 56, formatted as text. */
    method ReadStartTime(replay: WxFile, rep: StoredGame, clock: Clock)
      requires replay.isOpen
      modifies replay, rep`dateString
      ensures rep.dateString == clock.format(I64(Field(replay.data, TimeOffset, 8)))
      ensures replay.pos == TimeOffset + |Slice(replay.data, TimeOffset, 8)|
    {
      var r := replay.Seek(TimeOffset);
      if r == InvalidOffset {
        return;
      }
      var bytes := replay.Read(8);
      ReadField(replay.data, TimeOffset, 8, 8);
      var unixtime := I64(LE(Padded(bytes, 8)));
      rep.dateString := clock.format(unixtime);
    }

    /** GetReplayInfos: name the entry after the path, read the file's script (failing
        when the file is missing, does not open or has no script), its header, then the
        battle and the date (ReadBattle). */
    method GetReplayInfos(path: string, ret: StoredGame, env: Env) returns (outcome: Outcome)
      requires ret.battle.Valid()
      modifies ret`kind, ret`filename, ret`springVersion, ret`mapName, ret`modName, ret`duration,
               ret`size, ret`date, ret`dateString
      modifies ret.battle`script, ret.battle`playbackPath, ret.battle`battleType, ret.battle`engineName,
               ret.battle`engineVersion, ret.battle`hostMod, ret.battle`modLoaded, ret.battle`hostMap,
               ret.battle`mapLoaded, ret.battle`users, ret.battle`demoUsers, ret.battle`teamsSizes,
               ret.battle`allySizes, ret.battle`rects, ret.battle`parsedTeams, ret.battle`parsedAllies,
               ret.battle`opts, ret.battle`playersReady, ret.battle`playersSync, ret.battle`playersOk
      ensures outcome == ReplayOutcome(env, path)
      ensures NamedAfter(ret, path) && ret.battle.Valid()
      ensures outcome == Ok ==> ReadAsReplay(ret, env, path)
      ensures ret.battle.script == (if Opens(env.fs, path) then FileScript(env, path) else old(ret.battle.script))
    {
      NameAfter(path, ret);
      outcome := ReadReplayFile(path, ret, env);
    }

    /** GetReplayInfos once the entry is named: the file's script, then its header, the
        battle and the date; failing when the file does not exist or does not open, or
        its script is empty. */
    method ReadReplayFile(path: string, ret: StoredGame, env: Env) returns (outcome: Outcome)
      requires ret.battle.Valid() && ret.battle.playbackPath == path
      modifies ret`modName, ret`duration, ret`size, ret`date, ret`dateString
      modifies ret.battle`script, ret.battle`playbackPath, ret.battle`battleType, ret.battle`engineName,
               ret.battle`engineVersion, ret.battle`hostMod, ret.battle`modLoaded, ret.battle`hostMap,
               ret.battle`mapLoaded, ret.battle`users, ret.battle`demoUsers, ret.battle`teamsSizes,
               ret.battle`allySizes, ret.battle`rects, ret.battle`parsedTeams, ret.battle`parsedAllies,
               ret.battle`opts, ret.battle`playersReady, ret.battle`playersSync, ret.battle`playersOk
      ensures outcome == ReplayOutcome(env, path) && ret.battle.Valid() && ret.battle.playbackPath == path
      ensures outcome == Ok ==> ReadFromFile(ret, env, path)
      ensures ret.battle.script == (if Opens(env.fs, path) then FileScript(env, path) else old(ret.battle.script))
    {
      var ok, replay, version := OpenReplay(path, env, ret.battle);
      if !ok || ret.battle.script == [] {
        return Failed;
      }
      outcome := ReadHeaderAndBattle(path, ret, env, replay, version);
    }

    /** The file part of GetReplayInfos: open the file, read its version and its script,
        and hand the script to the battle; `ok` is false, with nothing changed, when the
        file does not exist or does not open. */
    method OpenReplay(path: string, env: Env, battle: Battle.IBattle) returns (ok: bool, replay: WxFile?, version: int)
      modifies battle`script
      ensures ok == Opens(env.fs, path)
      ensures battle.script == if ok then FileScript(env, path) else old(battle.script)
      ensures ok ==> replay != null && fresh(replay) && replay.isOpen && replay.data == env.fs.files[path]
                     && version == Version(replay.data, true)
    {
      replay, version := null, 0;
      if path !in env.fs.files {
        return false, replay, version;
      }
      replay := new WxFile(env.fs, path);
      if !replay.IsOpened() {
        return false, replay, version;
      }
      version := ReplayVersion(replay);
      var script := GetScriptFromReplay(replay, version);
      battle.SetScript(script);
      ok := true;
    }

    /** GetReplayInfos once a non-empty script is in the battle: the header, then the
        battle and the date. */
    method ReadHeaderAndBattle(path: string, ret: StoredGame, env: Env, replay: WxFile, version: int)
      returns (outcome: Outcome)
      requires Opens(env.fs, path) && replay.isOpen && replay.data == env.fs.files[path]
      requires version == Version(replay.data, true) && ret.battle.Valid()
      requires ret.battle.script == FileScript(env, path) != [] && ret.battle.playbackPath == path
      modifies replay, ret`modName, ret`duration, ret`size, ret`date, ret`dateString
      modifies ret.battle`playbackPath, ret.battle`battleType, ret.battle`engineName,
               ret.battle`engineVersion, ret.battle`hostMod, ret.battle`modLoaded, ret.battle`hostMap,
               ret.battle`mapLoaded, ret.battle`users, ret.battle`demoUsers, ret.battle`teamsSizes,
               ret.battle`allySizes, ret.battle`rects, ret.battle`parsedTeams, ret.battle`parsedAllies,
               ret.battle`opts, ret.battle`playersReady, ret.battle`playersSync, ret.battle`playersOk
      ensures outcome == ReplayOutcome(env, path) && ret.battle.Valid() && ret.battle.playbackPath == path
      ensures outcome == Ok ==> ReadFromFile(ret, env, path)
      ensures ret.duration == I32(Field(replay.data, DurationOffset(version), 4)) && ret.size == |replay.data|
      ensures outcome == Thrown ==>
        ret.modName == old(ret.modName) && ret.battle.battleType == old(ret.battle.battleType)
        && ret.battle.engineName == old(ret.battle.engineName) && ret.battle.engineVersion == old(ret.battle.engineVersion)
      ensures outcome != Thrown ==>
        ret.modName == ret.battle.hostMod.name && ret.battle.battleType == Battle.Replay
        && ret.battle.engineName == "spring" && ret.battle.engineVersion == ret.springVersion
      ensures outcome == Ok ==>
        ret.date == env.clock.parseName(FileName(path)).value && ret.dateString == env.clock.format(ret.date)
      ensures outcome != Ok ==> ret.date == old(ret.date) && ret.dateString == HeaderTime(env, path)
    {
      GetHeaderInfo(replay, ret, version, env.clock);
      outcome := ReadBattle(path, ret, env);
    }

    /** The first part of GetReplayInfos: the fields the path alone gives. */
    method NameAfter(path: string, ret: StoredGame)
      modifies ret`kind, ret`filename, ret`springVersion, ret`mapName, ret.battle`playbackPath
      ensures NamedAfter(ret, path)
    {
      var fileName := FileName(path);
      ret.kind := Replay;
      ret.filename := path;
      ret.battle.SetPlayBackFilePath(path);
      ret.springVersion := SpringVersionOf(fileName);
      ret.mapName := MapNameOf(fileName);
    }

    /** The rest of GetReplayInfos once the script is read: rebuild the battle (which may
        throw), take the game's name from it, mark it a replay of the "spring" engine at
        the version in the file name, and read the date from the file name (failing when
        it does not parse). */
    method ReadBattle(path: string, ret: StoredGame, env: Env) returns (outcome: Outcome)
      requires ret.battle.Valid() && ret.battle.playbackPath == path
      modifies ret`modName, ret`date, ret`dateString
      modifies ret.battle`playbackPath, ret.battle`battleType, ret.battle`engineName,
               ret.battle`engineVersion, ret.battle`hostMod, ret.battle`modLoaded, ret.battle`hostMap,
               ret.battle`mapLoaded, ret.battle`users, ret.battle`demoUsers, ret.battle`teamsSizes,
               ret.battle`allySizes, ret.battle`rects, ret.battle`parsedTeams, ret.battle`parsedAllies,
               ret.battle`opts, ret.battle`playersReady, ret.battle`playersSync, ret.battle`playersOk
      ensures ret.battle.Valid() && ret.battle.playbackPath == path
      ensures var date := env.clock.parseName(FileName(path));
        outcome == (if !ScriptCompletes(env.parse, ret.battle.script) then Thrown
                    else if date.None? then Failed else Ok)
      ensures outcome == Thrown ==>
        ret.modName == old(ret.modName) && ret.battle.battleType == old(ret.battle.battleType)
        && ret.battle.engineName == old(ret.battle.engineName) && ret.battle.engineVersion == old(ret.battle.engineVersion)
      ensures outcome != Thrown ==>
        ret.modName == ret.battle.hostMod.name && ret.battle.battleType == Battle.Replay
        && ret.battle.engineName == "spring" && ret.battle.engineVersion == ret.springVersion
      ensures outcome == Ok ==>
        ret.date == env.clock.parseName(FileName(path)).value && ret.dateString == env.clock.format(ret.date)
      ensures outcome != Ok ==> ret.date == old(ret.date) && ret.dateString == old(ret.dateString)
    {
      var completed := RebuildBattle(ret.battle, env);
      if !completed {
        return Thrown;
      }
      MarkReplay(path, ret);
      var dated := ReadDate(path, ret, env.clock);
      outcome := if dated then Ok else Failed;
    }

    /** The game's name from the rebuilt battle, and the battle marked a replay of the
        "spring" engine at the version in the file name. */
    method MarkReplay(path: string, ret: StoredGame)
      modifies ret`modName, ret.battle`battleType, ret.battle`engineName, ret.battle`engineVersion,
               ret.battle`playbackPath
      ensures ret.modName == ret.battle.hostMod.name && ret.battle.battleType == Battle.Replay
              && ret.battle.engineName == "spring" && ret.battle.engineVersion == ret.springVersion
              && ret.battle.playbackPath == path
      ensures ret.battle.ScriptState() == old(ret.battle.ScriptState())
    {
      ret.modName := ret.battle.GetHostModName();
      ret.battle.SetBattleType(Battle.Replay);
      ret.battle.SetEngineName("spring");
      ret.battle.SetEngineVersion(ret.springVersion);
      ret.battle.SetPlayBackFilePath(path);
    }

    /** The date from the file name and its text; false, with nothing changed, when the
        name does not parse. */
    method ReadDate(path: string, ret: StoredGame, clock: Clock) returns (dated: bool)
      modifies ret`date, ret`dateString
      ensures var date := clock.parseName(FileName(path));
        dated == date.Some?
        && (dated ==> ret.date == date.value && ret.dateString == clock.format(date.value))
        && (!dated ==> ret.date == old(ret.date) && ret.dateString == old(ret.dateString))
    {
      var rdate := clock.parseName(FileName(path));
      if rdate.None? {
        return false;
      }
      ret.date := rdate.value;
      ret.dateString := clock.format(rdate.value);
      return true;
    }
  }
}
