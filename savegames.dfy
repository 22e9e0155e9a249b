/** The savegame list: for every savegame file, the start script at the front of the
    file (the bytes before the first zero byte, read one at a time) and the battle the
    script rebuilds, with a count of the files that could not be read. */
module Savegames {
  import Battle
  import opened Playback

  /** std::ifstream opened for binary reading: the contents, whether it opened, the
      cursor and the fail bit (set when opening failed or a read found the end). */
  class InputStream {
    const data: seq<bv8>
    const isOpen: bool
    var pos: nat
    var failed: bool

    constructor (fs: FileSystem, path: string)
      ensures isOpen == Opens(fs, path)
      ensures data == (if isOpen then fs.files[path] else [])
      ensures pos == 0 && failed == !isOpen
    {
      isOpen := Opens(fs, path);
      data := if Opens(fs, path) then fs.files[path] else [];
      pos := 0;
      failed := !Opens(fs, path);
    }

    function IsOpen(): bool {
      isOpen
    }

    function Fail(): bool
      reads this`failed
    {
      failed
    }

    /** read(&c, 1): the next byte is stored in c. At the end of the file, or once the
        stream has failed, nothing is read: c keeps its value and the fail bit is set. */
    method Read(c: bv8) returns (r: bv8)
      modifies this`pos, this`failed
      ensures !old(failed) && old(pos) < |data| ==> r == data[old(pos)] && pos == old(pos) + 1 && !failed
      ensures old(failed) || old(pos) >= |data| ==> r == c && pos == old(pos) && failed
    {
      if !failed && pos < |data| {
        r := data[pos];
        pos := pos + 1;
      } else {
        r := c;
        failed := true;
      }
    }
  }

  /** The index of the first zero byte, or the length when there is none. */
  function FirstZero(d: seq<bv8>): (k: nat)
    ensures k <= |d|
    ensures forall j :: 0 <= j < k ==> d[j] != 0
    ensures k < |d| ==> d[k] == 0
  {
    if d == [] then 0 else if d[0] == 0 then 0 else 1 + FirstZero(d[1..])
  }

  /** The first zero byte is the only index with no zero before it that holds a zero
      or ends the data. */
  lemma {:induction false} FirstZeroAt(d: seq<bv8>, k: nat)
    requires k <= |d| && forall j :: 0 <= j < k ==> d[j] != 0
    requires k < |d| ==> d[k] == 0
    ensures FirstZero(d) == k
  {
    if d != [] && d[0] != 0 {
      assert forall j :: 0 <= j < k - 1 ==> d[1..][j] == d[j + 1];
      FirstZeroAt(d[1..], k - 1);
    }
  }

  /** What GetScriptFromSavegame's loop appends for the contents d of a file that
      opened: the bytes before the first zero byte. When the file has none, the read
      that meets the end leaves c at the last byte, which is appended once more; an
      empty file leaves c as it was before the loop (`uninit`, an uninitialised char
      in the source), appended when it is not zero. */
  function ByteLoopScript(d: seq<bv8>, uninit: bv8): seq<bv8> {
    var k := FirstZero(d);
    if k < |d| then d[..k]
    else if d == [] then (if uninit != 0 then [uninit] else [])
    else d + [d[|d| - 1]]
  }

  /** The script GetScriptFromSavegame returns for the file at path: nothing when the
      file does not open. */
  function SavegameScript(fs: FileSystem, path: string, uninit: bv8): seq<bv8> {
    if Opens(fs, path) then ByteLoopScript(fs.files[path], uninit) else []
  }

  /** Only non-zero bytes are appended, so the script holds no zero byte. */
  lemma ScriptHasNoZero(d: seq<bv8>, uninit: bv8)
    ensures forall j :: 0 <= j < |ByteLoopScript(d, uninit)| ==> ByteLoopScript(d, uninit)[j] != 0
  {
    var k := FirstZero(d);
    var r := ByteLoopScript(d, uninit);
    if k == |d| && d != [] {
      forall j | 0 <= j < |r| ensures r[j] != 0 {
        if j < |d| {
          assert r[j] == d[j];
        } else {
          assert r[j] == d[|d| - 1];
        }
      }
    }
  }

  /** A file with a zero byte gives exactly the bytes before the first one. */
  lemma ScriptStopsAtZero(d: seq<bv8>, uninit: bv8, k: nat)
    requires k < |d| && d[k] == 0 && forall j :: 0 <= j < k ==> d[j] != 0
    ensures ByteLoopScript(d, uninit) == d[..k]
  {
    FirstZeroAt(d, k);
  }

  /** A non-empty file without a zero byte gives all its bytes with the last one twice. */
  lemma ScriptDoublesLastByte(d: seq<bv8>, uninit: bv8)
    requires d != [] && forall j :: 0 <= j < |d| ==> d[j] != 0
    ensures ByteLoopScript(d, uninit) == d + [d[|d| - 1]]
    ensures |ByteLoopScript(d, uninit)| == |d| + 1
  {
    FirstZeroAt(d, |d|);
  }

  /** The script starts with the bytes before the first zero byte, and adds at most
      one byte to them. */
  lemma ScriptPrefix(d: seq<bv8>, uninit: bv8)
    ensures d[..FirstZero(d)] <= ByteLoopScript(d, uninit)
    ensures |ByteLoopScript(d, uninit)| <= FirstZero(d) + 1
  {
    var k := FirstZero(d);
    if k == |d| && d != [] {
      assert d[..k] == d;
    }
  }

  /** A file that does not open gives an empty script, and so does an empty file when
      the uninitialised char happens to be zero. */
  lemma EmptyScripts(fs: FileSystem, path: string, uninit: bv8)
    ensures !Opens(fs, path) ==> SavegameScript(fs, path, uninit) == []
    ensures Opens(fs, path) && fs.files[path] == [] ==> (SavegameScript(fs, path, uninit) == [] <==> uninit == 0)
    ensures SavegameScript(fs, path, uninit) != [] ==> Opens(fs, path)
  {
  }

  /** How GetSavegameInfos ends for a path: it fails on an empty path or an empty
      script, throws when GetBattleFromScript does, and otherwise keeps the entry. */
  function SavegameOutcome(env: Env, path: string, uninit: bv8): Outcome {
    if path == "" then Failed
    else
      var script := SavegameScript(env.fs, path, uninit);
      if script == [] then Failed
      else if !ScriptCompletes(env.parse, script) then Thrown
      else Ok
  }

  /** The outcome of each file in turn; `uninit` gives, for each path, what the
      uninitialised char holds when its loop starts. */
  function SavegameOutcomes(paths: seq<string>, env: Env, uninit: string -> bv8): (os: seq<Outcome>)
    ensures |os| == |paths|
  {
    if paths == [] then []
    else SavegameOutcomes(paths[..|paths| - 1], env, uninit)
         + [SavegameOutcome(env, paths[|paths| - 1], uninit(paths[|paths| - 1]))]
  }

  lemma {:induction false} SavegameOutcomeAt(paths: seq<string>, env: Env, uninit: string -> bv8, i: nat)
    requires i < |paths|
    ensures SavegameOutcomes(paths, env, uninit)[i] == SavegameOutcome(env, paths[i], uninit(paths[i]))
    decreases |paths|
  {
    if i < |paths| - 1 {
      assert paths[..|paths| - 1][i] == paths[i];
      SavegameOutcomeAt(paths[..|paths| - 1], env, uninit, i);
    }
  }

  /** The fields GetSavegameInfos fills from the path alone. */
  ghost predicate NamedAfter(g: StoredGame, path: string)
    reads g`kind, g`filename, g.battle`playbackPath
  {
    g.kind == Savegame && g.filename == path && g.battle.playbackPath == path
  }

  /** What a successful GetSavegameInfos takes from the file: the script, the game from
      the rebuilt battle, the savegame battle type and the file's size. */
  ghost predicate ReadFromFile(g: StoredGame, env: Env, path: string, uninit: bv8)
    reads g`modName, g`size, g.battle`script, g.battle`hostMod, g.battle`battleType
  {
    Opens(env.fs, path)
    && g.battle.script == SavegameScript(env.fs, path, uninit)
    && g.modName == g.battle.hostMod.name && g.battle.battleType == Battle.Savegame
    && g.size == |env.fs.files[path]|
  }

  /** A savegame entry read in full: named after its path, and read from its file. */
  ghost predicate ReadAsSavegame(g: StoredGame, env: Env, path: string, uninit: bv8)
    reads g`kind, g`filename, g`modName, g`size, g.battle`playbackPath, g.battle`script, g.battle`hostMod,
          g.battle`battleType
  {
    NamedAfter(g, path) && ReadFromFile(g, env, path, uninit)
  }

  /** The entries of a savegame list: each is named after its file, and those whose
      file was read successfully are read in full. */
  ghost predicate Listed(rs: map<nat, StoredGame>, filenames: seq<string>, os: seq<Outcome>, env: Env,
                         uninit: string -> bv8)
    reads set j | j in rs :: rs[j], set j | j in rs :: rs[j].battle
  {
    forall j :: j in rs ==>
      j < |filenames| && j < |os| && rs[j].id == j && NamedAfter(rs[j], filenames[j])
      && (os[j] == Ok ==> ReadAsSavegame(rs[j], env, filenames[j], uninit(filenames[j])))
  }

  /** An entry named after the i-th file, and read in full when that file was read
      successfully, may join the entries under key i. */
  lemma ListedAdd(rs: map<nat, StoredGame>, filenames: seq<string>, os: seq<Outcome>, env: Env,
                  uninit: string -> bv8, i: nat, g: StoredGame)
    requires Listed(rs, filenames, os, env, uninit)
    requires i < |filenames| && i < |os| && g.id == i && NamedAfter(g, filenames[i])
    requires os[i] == Ok ==> ReadAsSavegame(g, env, filenames[i], uninit(filenames[i]))
    ensures Listed(rs[i := g], filenames, os, env, uninit)
  {
  }

  class SavegameList {
    var replays: map<nat, StoredGame>
    var fails: nat

    constructor ()
      ensures replays == map[] && fails == 0
    {
      replays := map[];
      fails := 0;
    }

    /** AddPlayback (IPlaybackList, not part of this model): a new entry under key i. */
    method AddPlayback(i: nat) returns (g: StoredGame)
      modifies this`replays
      ensures fresh(g) && fresh(g.battle) && g.id == i && g.battle.Valid()
      ensures replays == old(replays)[i := g]
    {
      g := new StoredGame(i);
      replays := replays[i := g];
    }

    /** RemovePlayback (IPlaybackList, not part of this model): drop the entry under key i. */
    method RemovePlayback(i: nat)
      modifies this`replays
      ensures replays == old(replays) - {i}
    {
      replays := replays - {i};
    }

    /** LoadPlaybacks: reset the failure count and empty the list, then read each file
        into a new entry under its index; an entry whose reading failed is removed and
        counted. An exception from a file's script (`thrown`) ends the loop with that
        file's entry still listed and not counted. */
    method LoadPlaybacks(filenames: seq<string>, env: Env, uninit: string -> bv8) returns (thrown: bool)
      modifies this`replays, this`fails
      ensures var os := SavegameOutcomes(filenames, env, uninit);
        (thrown <==> Thrown in os)
        && replays.Keys == Kept(os)
        && fails == CountFailed(os[..FirstThrown(os)])
        && Listed(replays, filenames, os, env, uninit)
    {
      ghost var os := SavegameOutcomes(filenames, env, uninit);
      fails := 0;
      replays := map[];
      thrown := false;
      var i := 0;
      while i < |filenames|
        invariant 0 <= i <= |filenames|
        invariant forall j :: 0 <= j < i ==> os[j] != Thrown
        invariant forall j: nat :: j in replays <==> j < i && os[j] != Failed
        invariant fails == CountFailed(os[..i])
        invariant Listed(replays, filenames, os, env, uninit)
      {
        SavegameOutcomeAt(filenames, env, uninit, i);
        CountFailedSnoc(os, i);
        var outcome := LoadPlayback(i, filenames, os, env, uninit);
        if outcome == Thrown {
          KeptPrefix(os, i, replays.Keys);
          assert os[..FirstThrown(os)] == os[..i];
          return true;
        }
        i := i + 1;
      }
      KeptPrefix(os, i, replays.Keys);
      assert os[..i] == os;
      assert Thrown !in os;
    }

    /** One turn of LoadPlaybacks: add an entry under key i, read the i-th file into it,
        and when the reading failed remove the entry again and count the failure. */
    method LoadPlayback(i: nat, filenames: seq<string>, ghost os: seq<Outcome>, env: Env, uninit: string -> bv8)
      returns (outcome: Outcome)
      requires i < |filenames| == |os| && os[i] == SavegameOutcome(env, filenames[i], uninit(filenames[i]))
      requires i !in replays && Listed(replays, filenames, os, env, uninit)
      modifies this`replays, this`fails
      ensures outcome == os[i]
      ensures forall j :: j in replays <==> j in old(replays) || (j == i && outcome != Failed)
      ensures fails == old(fails) + (if outcome == Failed then 1 else 0)
      ensures Listed(replays, filenames, os, env, uninit)
    {
      ghost var listed := replays;
      var playback;
      outcome, playback := AddSavegame(i, filenames[i], env, uninit(filenames[i]));
      assert Listed(listed, filenames, os, env, uninit);
      if outcome == Failed {
        RemovePlayback(i);
        AddThenRemove(listed, i, playback);
        fails := fails + 1;
      } else {
        ListedAdd(listed, filenames, os, env, uninit, i, playback);
      }
    }

    /** A new entry under key i, read from the file at path. */
    method AddSavegame(i: nat, path: string, env: Env, uninit: bv8) returns (outcome: Outcome, playback: StoredGame)
      modifies this`replays
      ensures outcome == SavegameOutcome(env, path, uninit)
      ensures fresh(playback) && fresh(playback.battle) && replays == old(replays)[i := playback]
      ensures playback.id == i && NamedAfter(playback, path)
      ensures outcome == Ok ==> ReadAsSavegame(playback, env, path, uninit)
    {
      playback := AddPlayback(i);
      outcome := GetSavegameInfos(path, playback, env, uninit);
    }

    /** GetSavegameInfos: name the entry after the path; fail on an empty path or an
        empty script; otherwise rebuild the battle from the script (which may throw),
        take the game's name from it, mark it a savegame and record the file's size. */
    method GetSavegameInfos(path: string, ret: StoredGame, env: Env, uninit: bv8) returns (outcome: Outcome)
      requires ret.battle.Valid()
      modifies ret`kind, ret`filename, ret`modName, ret`size
      modifies ret.battle`script, ret.battle`playbackPath, ret.battle`battleType, ret.battle`hostMod,
               ret.battle`modLoaded, ret.battle`hostMap, ret.battle`mapLoaded, ret.battle`users,
               ret.battle`demoUsers, ret.battle`teamsSizes, ret.battle`allySizes, ret.battle`rects,
               ret.battle`parsedTeams, ret.battle`parsedAllies, ret.battle`opts, ret.battle`playersReady,
               ret.battle`playersSync, ret.battle`playersOk
      ensures outcome == SavegameOutcome(env, path, uninit)
      ensures NamedAfter(ret, path) && ret.battle.Valid()
      ensures outcome == Ok ==> ReadAsSavegame(ret, env, path, uninit)
      ensures ret.battle.script == (if path == "" then old(ret.battle.script) else SavegameScript(env.fs, path, uninit))
    {
      NameAfter(path, ret);
      if path == "" {
        return Failed;
      }
      outcome := ReadSavegameFile(path, ret, env, uninit);
    }

    /** The first part of GetSavegameInfos: the fields the path alone gives. */
    method NameAfter(path: string, ret: StoredGame)
      modifies ret`kind, ret`filename, ret.battle`playbackPath
      ensures NamedAfter(ret, path)
    {
      ret.kind := Savegame;
      ret.filename := path;
      ret.battle.SetPlayBackFilePath(path);
    }

    /** GetSavegameInfos for a non-empty path: the script into the battle, failing when
        it is empty, then the battle and the entry's fields. */
    method ReadSavegameFile(path: string, ret: StoredGame, env: Env, uninit: bv8) returns (outcome: Outcome)
      requires ret.battle.Valid() && path != ""
      modifies ret`modName, ret`size
      modifies ret.battle`script, ret.battle`battleType, ret.battle`hostMod, ret.battle`modLoaded,
               ret.battle`hostMap, ret.battle`mapLoaded, ret.battle`users, ret.battle`demoUsers,
               ret.battle`teamsSizes, ret.battle`allySizes, ret.battle`rects, ret.battle`parsedTeams,
               ret.battle`parsedAllies, ret.battle`opts, ret.battle`playersReady, ret.battle`playersSync,
               ret.battle`playersOk
      ensures outcome == SavegameOutcome(env, path, uninit) && ret.battle.Valid()
      ensures outcome == Ok ==> ReadFromFile(ret, env, path, uninit)
      ensures ret.battle.script == SavegameScript(env.fs, path, uninit)
    {
      var script := GetScriptFromSavegame(path, env.fs, uninit);
      ret.battle.SetScript(script);
      if ret.battle.script == [] {
        return Failed;
      }
      EmptyScripts(env.fs, path, uninit);
      var completed := RebuildBattle(ret.battle, env);
      if !completed {
        return Thrown;
      }
      MarkSavegame(path, ret, env.fs);
      outcome := Ok;
    }

    /** The game's name from the rebuilt battle, the battle marked a savegame, and the
        size of the file (wxFileName::GetSize; the file exists, as it opened). */
    method MarkSavegame(path: string, ret: StoredGame, fs: FileSystem)
      requires path in fs.files
      modifies ret`modName, ret`size, ret.battle`battleType
      ensures ret.modName == ret.battle.hostMod.name && ret.battle.battleType == Battle.Savegame
      ensures ret.size == |fs.files[path]|
    {
      ret.modName := ret.battle.GetHostModName();
      ret.battle.SetBattleType(Battle.Savegame);
      ret.size := |fs.files[path]|;
    }

    /** GetScriptFromSavegame: read the file one byte at a time, appending every
        non-zero byte, until a zero byte is read or a read fails. */
    method GetScriptFromSavegame(path: string, fs: FileSystem, uninit: bv8) returns (script: seq<bv8>)
      ensures script == SavegameScript(fs, path, uninit)
    {
      var file := new InputStream(fs, path);
      script := [];
      if file.IsOpen() {
        ghost var d := file.data;
        var c := uninit;
        var more := true;
        while more
          invariant file.data == d && file.pos <= |d|
          invariant more ==> !file.failed && script == d[..file.pos]
                             && (forall j :: 0 <= j < file.pos ==> d[j] != 0)
                             && (file.pos > 0 ==> c == d[file.pos - 1])
                             && (file.pos == 0 ==> c == uninit)
          invariant !more ==> script == ByteLoopScript(d, uninit)
          decreases |d| - file.pos + (if more then 1 else 0)
        {
          ghost var p := file.pos;
          c := file.Read(c);
          if c != 0 {
            script := script + [c];
          }
          more := c != 0 && !file.Fail();
          if p < |d| && c == 0 {
            FirstZeroAt(d, p);
          } else if p == |d| {
            FirstZeroAt(d, p);
            assert d[..p] == d;
          }
        }
      }
    }
  }
}
