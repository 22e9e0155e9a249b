/** What the replay and savegame lists share: the files they read, a wxFile opened for
    reading with its cursor, little-endian header fields, the StoredGame entry a list
    holds, and how reading one file can end. */
module Playback {
  import opened Text
  import opened Users
  import Tdf
  import Unitsync
  import Battle

  /** The files as the lists see them: the contents of each existing path, and the
      existing paths that cannot be opened for reading. */
  datatype FileSystem = FileSystem(files: map<string, seq<bv8>>, unreadable: set<string>)

  predicate Opens(fs: FileSystem, path: string) {
    path in fs.files && path !in fs.unreadable
  }

  /** wxDateTime as the replay list uses it: `parseName` is ParseFormat(name,
      "%Y%m%d_%H%M%S") followed by GetTicks (None when the name does not parse), and
      `format` is FormatISODate() + " " + FormatISOTime() of a time in seconds. */
  datatype Clock = Clock(parseName: string -> Option<int>, format: int -> string)

  /** The collaborators reading one file needs: the files, the TDF parser, the hash
      normaliser, the archive index and the colour reader GetBattleFromScript uses, and
      the clock. */
  datatype Env = Env(fs: FileSystem, parse: seq<bv8> -> Tdf.Node, hashFn: string -> string,
                     index: Unitsync.Index, colourOf: string -> Colour, clock: Clock)

  /** wxInvalidOffset. */
  const InvalidOffset := -1

  function Min(a: int, b: int): int {
    if a < b then a else b
  }

  /** The byte at offset j, where a file is taken to read as zero past its end. */
  function ByteAt(data: seq<bv8>, j: int): bv8 {
    if 0 <= j < |data| then data[j] else 0
  }

  /** The unsigned little-endian value of the n bytes at offset p. */
  function Field(data: seq<bv8>, p: nat, n: nat): nat
    decreases n
  {
    if n == 0 then 0 else ByteAt(data, p) as nat + 256 * Field(data, p + 1, n - 1)
  }

  /** The value of a little-endian buffer. */
  function LE(s: seq<bv8>): nat {
    if s == [] then 0 else s[0] as nat + 256 * LE(s[1..])
  }

  /** The bytes read(2) delivers when n are asked for at offset p: fewer, or none, at
      the end of the file. */
  function Slice(data: seq<bv8>, p: nat, n: nat): (r: seq<bv8>)
    ensures |r| <= n
  {
    data[Min(p, |data|)..Min(p + n, |data|)]
  }

  /** A zero-initialised buffer of n bytes whose front a read has overwritten with s. */
  function Padded(s: seq<bv8>, n: nat): (r: seq<bv8>)
    requires |s| <= n
    ensures |r| == n
  {
    s + seq(n - |s|, _ => 0 as bv8)
  }

  /** Zero bytes at the high end do not change a little-endian value. */
  lemma {:induction false} LEPadded(s: seq<bv8>, n: nat)
    requires |s| <= n
    ensures LE(Padded(s, n)) == LE(s)
    decreases n
  {
    var r := Padded(s, n);
    if s == [] {
      if n > 0 {
        assert r[1..] == Padded([], n - 1);
        LEPadded([], n - 1);
      }
    } else {
      assert r[0] == s[0] && r[1..] == Padded(s[1..], n - 1);
      LEPadded(s[1..], n - 1);
    }
  }

  /** The value read(2) delivers for a field is the field's value. */
  lemma {:induction false} LESlice(data: seq<bv8>, p: nat, n: nat)
    ensures LE(Slice(data, p, n)) == Field(data, p, n)
    decreases n
  {
    if n > 0 {
      LESlice(data, p + 1, n - 1);
      if p < |data| {
        var s := Slice(data, p, n);
        assert s[0] == data[p] && s[1..] == Slice(data, p + 1, n - 1);
      }
    }
  }

  /** Reading an integer field into a zero-initialised variable of m >= n bytes gives
      the field's little-endian value. */
  lemma ReadField(data: seq<bv8>, p: nat, n: nat, m: nat)
    requires n <= m
    ensures LE(Padded(Slice(data, p, n), m)) == Field(data, p, n)
  {
    LEPadded(Slice(data, p, n), m);
    LESlice(data, p, n);
  }

  /** The n bytes at offset p, zero where they lie past the end of the file. */
  function Bytes(data: seq<bv8>, p: nat, n: nat): (r: seq<bv8>)
    ensures |r| == n
    ensures forall k :: 0 <= k < n ==> r[k] == ByteAt(data, p + k)
  {
    if n == 0 then [] else Bytes(data, p, n - 1) + [ByteAt(data, p + n - 1)]
  }

  /** Reading n bytes at p into a zero-filled buffer of n bytes gives the bytes at p,
      zero past the end of the file. */
  lemma ReadBytes(data: seq<bv8>, p: nat, n: nat)
    ensures Padded(Slice(data, p, n), n) == Bytes(data, p, n)
  {
    var s := Slice(data, p, n);
    var r := Padded(s, n);
    forall k | 0 <= k < n
      ensures r[k] == ByteAt(data, p + k)
    {
      if k < |s| {
        assert r[k] == s[k] == data[p + k];
      } else {
        assert p + k >= |data|;
      }
    }
  }

  /** A wxFile opened for reading: its contents, whether it opened, and the cursor. */
  class WxFile {
    const data: seq<bv8>
    const isOpen: bool
    var pos: nat

    /** wxFile(path, wxFile::read). A file that does not open reads as empty. */
    constructor (fs: FileSystem, path: string)
      ensures isOpen == Opens(fs, path)
      ensures data == (if isOpen then fs.files[path] else [])
      ensures pos == 0
    {
      isOpen := Opens(fs, path);
      data := if Opens(fs, path) then fs.files[path] else [];
      pos := 0;
    }

    function IsOpened(): bool {
      isOpen
    }

    function Length(): nat {
      |data|
    }

    /** Seek(ofs) from the start: fails when the file is not open or the offset is
        negative (lseek accepts an offset past the end). */
    method Seek(ofs: int) returns (r: int)
      modifies this
      ensures r == (if isOpen && ofs >= 0 then ofs else InvalidOffset)
      ensures pos == (if isOpen && ofs >= 0 then ofs else old(pos))
    {
      if isOpen && ofs >= 0 {
        pos := ofs;
        r := ofs;
      } else {
        r := InvalidOffset;
      }
    }

    /** Read(n): up to n bytes from the cursor, fewer at the end of the file; the cursor
        moves past what was read. */
    method Read(n: nat) returns (bytes: seq<bv8>)
      modifies this
      ensures bytes == (if isOpen then Slice(data, old(pos), n) else [])
      ensures pos == old(pos) + |bytes|
    {
      if isOpen {
        bytes := Slice(data, pos, n);
        pos := pos + |bytes|;
      } else {
        bytes := [];
      }
    }
  }

  datatype Kind = Replay | Savegame

  /** StoredGame: one entry of a playback list, with the battle its script rebuilds.
      storedgame.h is not part of this model: a new entry is taken to hold its id,
      empty text, zero numbers, the replay kind and a fresh battle. */
  class StoredGame {
    var id: nat
    var kind: Kind
    var filename: string
    var mapName: string
    var modName: string
    var springVersion: string
    var duration: int
    var size: int
    var date: int
    var dateString: string
    const battle: Battle.IBattle

    constructor (id: nat)
      ensures this.id == id && kind == Replay && filename == "" && mapName == "" && modName == ""
      ensures springVersion == "" && duration == 0 && size == 0 && date == 0 && dateString == ""
      ensures fresh(battle) && battle.Valid() && battle.script == [] && battle.playbackPath == ""
    {
      this.id := id;
      kind := Replay;
      filename := "";
      mapName := "";
      modName := "";
      springVersion := "";
      duration := 0;
      size := 0;
      date := 0;
      dateString := "";
      battle := new Battle.IBattle("");
    }
  }

  /** How reading one file ends: the entry is kept, it is removed, or GetBattleFromScript
      threw (the map name is empty) and the exception leaves LoadPlaybacks with the
      entry still in the list. */
  datatype Outcome = Ok | Failed | Thrown

  /** GetBattleFromScript returns normally on this script: it has no GAME section, or
      that section names a map. */
  predicate ScriptCompletes(parse: seq<bv8> -> Tdf.Node, script: seq<bv8>) {
    var game := Tdf.Find(parse(script), "GAME");
    game.None? || Tdf.GetString(game.value, "MapName", "") != ""
  }

  /** GetBattleFromScript(false) on `script` took a battle from `before` to `after`;
      `completed` is false when it threw. */
  ghost predicate Rebuilt(before: Battle.ScriptRebuildState, after: Battle.ScriptRebuildState, env: Env,
                          script: seq<bv8>, completed: bool)
  {
    Battle.ScriptRead(before, after, env.parse(script), false, env.hashFn, env.index, env.colourOf, completed)
  }

  /** The rebuild throws exactly on the scripts ScriptCompletes rules out. */
  lemma RebuiltCompletes(before: Battle.ScriptRebuildState, after: Battle.ScriptRebuildState, env: Env,
                         script: seq<bv8>, completed: bool)
    requires Rebuilt(before, after, env, script, completed)
    ensures completed <==> ScriptCompletes(env.parse, script)
  {
  }

  /** GetBattleFromScript(false) on the battle's script, which completes exactly when
      ScriptCompletes says. */
  method RebuildBattle(battle: Battle.IBattle, env: Env) returns (completed: bool)
    requires battle.Valid()
    modifies battle`hostMod, battle`modLoaded, battle`hostMap, battle`mapLoaded, battle`users,
             battle`demoUsers, battle`teamsSizes, battle`allySizes, battle`rects, battle`parsedTeams,
             battle`parsedAllies, battle`opts, battle`playersReady, battle`playersSync, battle`playersOk
    ensures battle.Valid()
    ensures Rebuilt(old(battle.ScriptState()), battle.ScriptState(), env, battle.script, completed)
    ensures completed <==> ScriptCompletes(env.parse, battle.script)
  {
    completed := battle.GetBattleFromScript(false, env.parse, env.hashFn, env.index, env.colourOf);
    RebuiltCompletes(old(battle.ScriptState()), battle.ScriptState(), env, battle.script, completed);
  }

  /** Adding an entry under a new key and removing it again gives back the entries. */
  lemma AddThenRemove(rs: map<nat, StoredGame>, i: nat, g: StoredGame)
    requires i !in rs
    ensures rs[i := g] - {i} == rs
  {
    assert forall j :: j in rs[i := g] - {i} <==> j in rs;
  }

  /** Index of the first file whose reading threw, or the number of files. */
  function FirstThrown(os: seq<Outcome>): (k: nat)
    ensures k <= |os|
    ensures forall j :: 0 <= j < k ==> os[j] != Thrown
    ensures k < |os| ==> os[k] == Thrown
  {
    if os == [] then 0 else if os[0] == Thrown then 0 else 1 + FirstThrown(os[1..])
  }

  /** The entries LoadPlaybacks leaves: every file read up to and including the first
      that threw, except those whose reading failed. */
  function Kept(os: seq<Outcome>): set<nat> {
    set i: nat | i < |os| && i <= FirstThrown(os) && os[i] != Failed
  }

  /** The number of failed files among the first n. */
  function CountFailed(os: seq<Outcome>): nat {
    if os == [] then 0 else CountFailed(os[..|os| - 1]) + (if os[|os| - 1] == Failed then 1 else 0)
  }

  /** When the first i files were read without an exception, and the i-th then threw
      or there is none left, the i-th is the first that threw and the keys of the
      entries not removed are Kept. */
  lemma KeptPrefix(os: seq<Outcome>, i: nat, keys: set<nat>)
    requires i <= |os| && forall j :: 0 <= j < i ==> os[j] != Thrown
    requires i == |os| || os[i] == Thrown
    requires forall j: nat :: j in keys <==> j <= i && j < |os| && os[j] != Failed
    ensures keys == Kept(os) && FirstThrown(os) == i
  {
    assert FirstThrown(os) == i;
  }

  /** Counting failures file by file: the count grows by one exactly at a failed file. */
  lemma CountFailedSnoc(os: seq<Outcome>, i: nat)
    requires i < |os|
    ensures CountFailed(os[..i + 1]) == CountFailed(os[..i]) + (if os[i] == Failed then 1 else 0)
  {
    assert os[..i + 1][..i] == os[..i];
  }

  /** A count of failures is at most the number of files, and is the number of files
      exactly when every one failed. */
  lemma {:induction false} CountFailedBounded(os: seq<Outcome>)
    ensures CountFailed(os) <= |os|
    ensures CountFailed(os) == |os| <==> forall i :: 0 <= i < |os| ==> os[i] == Failed
  {
    if os != [] {
      var front := os[..|os| - 1];
      CountFailedBounded(front);
      assert forall i :: 0 <= i < |front| ==> front[i] == os[i];
    }
  }
}
