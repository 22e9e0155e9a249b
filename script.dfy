/** What GetBattleFromScript does to a battle for each PLAYERn / AIn section of a parsed
    start script: the user it creates, the team and ally occupancy it joins, the TEAMn and
    ALLYTEAMn sections it reads once and caches, the start rectangles it adds and the
    counters it bumps. The battle's player loop is proved against ScriptFold. */
module ScriptRebuild {
  import opened Text
  import opened Users
  import opened Tdf
  import Occupancy
  import StartRects

  /** IBattle::TeamInfoContainer: one TEAMn section, once read. */
  datatype TeamInfo = TeamInfo(
    exist: bool,
    teamLeader: int,
    startPosX: int,
    startPosY: int,
    allyTeam: int,
    colour: Colour,
    sideName: string,
    handicap: int,
    sideNum: int)

  /** A default-constructed TeamInfoContainer (what `parsed_teams[team]` inserts). */
  const NoTeam := TeamInfo(false, 0, -1, -1, 0, Colour(0, 0, 0), "", 0, -1)

  /** IBattle::AllyInfoContainer: one ALLYTEAMn section, once read. */
  datatype AllyInfo = AllyInfo(
    exist: bool,
    numAllies: int,
    startRectLeft: int,
    startRectTop: int,
    startRectRight: int,
    startRectBottom: int)

  /** A default-constructed AllyInfoContainer. */
  const NoAlly := AllyInfo(false, 0, 0, 0, 0, 0)

  /** The part of a battle the player loop changes, plus the local spectator count. */
  datatype Rebuilt = Rebuilt(
    users: seq<User>,
    demoUsers: map<string, User>,
    teamsSizes: Occupancy.Sizes,
    allySizes: Occupancy.Sizes,
    rects: StartRects.Rects,
    parsedTeams: map<int, TeamInfo>,
    parsedAllies: map<int, AllyInfo>,
    spectators: int,
    ready: int,
    sync: int,
    ok: int)

  /** The section named prefix followed by i in decimal ("PLAYER%d" and friends). */
  function Section(game: Node, prefix: string, i: int): Option<Node> {
    Find(game, prefix + IntToString(i))
  }

  /** The number of player sections the loop visits: NumUsers when positive, else NumPlayers. */
  function PlayerCount(game: Node): (n: int)
    ensures GetInt(game, "NumUsers", 0) > 0 ==> n == GetInt(game, "NumUsers", 0)
    ensures GetInt(game, "NumUsers", 0) <= 0 ==> n == GetInt(game, "NumPlayers", 0)
  {
    var usersNum := GetInt(game, "NumUsers", 0);
    if usersNum > 0 then usersNum else GetInt(game, "NumPlayers", 0)
  }

  /** LSL::Util::IndexInSequence: the first index holding x, or -1. */
  function IndexInSequence(s: seq<string>, x: string): (k: int)
    ensures -1 <= k < |s|
    ensures k >= 0 ==> s[k] == x && forall j :: 0 <= j < k ==> s[j] != x
    ensures k < 0 ==> x !in s
  {
    if s == [] then -1
    else if s[0] == x then 0
    else
      var k := IndexInSequence(s[1..], x);
      assert forall j :: 1 <= j < |s| ==> s[j] == s[1..][j - 1];
      if k < 0 then -1 else k + 1
  }

  /** The fields read from a TEAMn section. */
  function ReadTeam(t: Node, sides: seq<string>, colourOf: string -> Colour): TeamInfo {
    var sideName := GetString(t, "Side", "");
    TeamInfo(true, GetInt(t, "TeamLeader", 0), GetInt(t, "StartPosX", -1), GetInt(t, "StartPosY", -1),
             GetInt(t, "AllyTeam", 0), colourOf(GetString(t, "RGBColor", "")), sideName,
             GetInt(t, "Handicap", 0), IndexInSequence(sides, sideName))
  }

  /** The fields read from an ALLYTEAMn section. */
  function ReadAlly(a: Node): AllyInfo {
    AllyInfo(true, GetInt(a, "NumAllies", 0), GetInt(a, "StartRectLeft", 0), GetInt(a, "StartRectTop", 0),
             GetInt(a, "StartRectRight", 0), GetInt(a, "StartRectBottom", 0))
  }

  /** The section describing player i: the AIi section when there is one, else PLAYERi. */
  function PlayerSection(game: Node, i: int): (r: Option<Node>)
    ensures Section(game, "AI", i).Some? ==> r == Section(game, "AI", i)
  {
    var bot := Section(game, "AI", i);
    if bot.Some? then bot else Section(game, "PLAYER", i)
  }

  /** The status a player section starts from, before its team is looked at: from the
      demo, ready and synced; an AI section also names the AI and its owner (the Name of
      the PLAYER section its Host field points at). */
  function PlayerStatus(game: Node, node: Node, isBot: bool): BattleStatus {
    var s := DefaultStatus.(isFromDemo := true, spectator := GetInt(node, "Spectator", 0) != 0,
                            team := GetInt(node, "Team", 0), sync := 1, ready := true);
    if !isBot then s
    else
      var owner := Section(game, "PLAYER", GetInt(node, "Host", 0));
      s.(aiShortName := GetString(node, "ShortName", ""), aiVersion := GetString(node, "Version", ""),
         owner := if owner.Some? then GetString(owner.value, "Name", "") else s.owner)
  }

  /** The team info after looking the team up: the cached one when it exists, else the
      TEAMn section when there is one, else what `operator[]` left in the cache. */
  function LookUpTeam(cache: map<int, TeamInfo>, game: Node, team: int, sides: seq<string>,
                      colourOf: string -> Colour): TeamInfo
  {
    var cached := if team in cache then cache[team] else NoTeam;
    var found := Section(game, "TEAM", team);
    if !cached.exist && found.Some? then ReadTeam(found.value, sides, colourOf) else cached
  }

  /** The status once an existing team info is applied to it. */
  function TeamStatus(s: BattleStatus, ti: TeamInfo): BattleStatus {
    s.(ally := ti.allyTeam, pos := Position(ti.startPosX, ti.startPosY), colour := ti.colour,
       handicap := ti.handicap, side := if ti.sideNum >= 0 then ti.sideNum else s.side)
  }

  /** Joining the team's ally and looking the ally up: a first ALLYTEAMn section read
      adds its start rectangle, with the left edge taken from StartRectTop. */
  function WithAlly(st: Rebuilt, game: Node, spectator: bool, ally: int): Rebuilt {
    var cached := if ally in st.parsedAllies then st.parsedAllies[ally] else NoAlly;
    var found := Section(game, "ALLYTEAM", ally);
    var first := !cached.exist && found.Some?;
    var ai := if first then ReadAlly(found.value) else cached;
    st.(allySizes := if spectator then st.allySizes else Occupancy.Joined(st.allySizes, ally),
        parsedAllies := st.parsedAllies[ally := ai],
        rects := if first then
                   StartRects.Add(st.rects, U32(ally), U32(ai.startRectTop), U32(ai.startRectTop),
                                  U32(ai.startRectRight), U32(ai.startRectBottom))
                 else st.rects)
  }

  /** A team whose AllyTeam is -1, with an ALLYTEAM-1 section in the script, adds a
      rectangle at ally 0xFFFFFFFF (the -1 converted to `unsigned int`). */
  lemma AllyMinusOneRect(st: Rebuilt, game: Node, spectator: bool)
    requires Section(game, "ALLYTEAM", -1).Some? && -1 !in st.parsedAllies
    ensures 0xFFFF_FFFF in WithAlly(st, game, spectator, -1).rects
  {
    assert U32(-1) == 0xFFFF_FFFF;
  }

  /** A player section's team step: the status it describes, its team joined (by a
      player) and looked up, the spectator and ready/sync/ok counters bumped (the latter
      by a human player only); also the team info found. */
  function JoinTeam(st: Rebuilt, game: Node, i: int, node: Node, sides: seq<string>,
                    colourOf: string -> Colour): (Rebuilt, BattleStatus, TeamInfo)
  {
    var isBot := Section(game, "AI", i).Some?;
    var s0 := PlayerStatus(game, node, isBot);
    var human := !s0.spectator && !isBot;
    var ti := LookUpTeam(st.parsedTeams, game, s0.team, sides, colourOf);
    (st.(teamsSizes := if s0.spectator then st.teamsSizes else Occupancy.Joined(st.teamsSizes, s0.team),
         parsedTeams := st.parsedTeams[s0.team := ti],
         spectators := st.spectators + (if s0.spectator then 1 else 0),
         ready := st.ready + (if human then 1 else 0),
         sync := st.sync + (if human then 1 else 0),
         ok := st.ok + (if human then 1 else 0)),
     s0, ti)
  }

  /** A player section's effect before the user is listed: its team and, when the team
      exists, its ally are joined and looked up; also the status the user gets. */
  function SeatPlayer(st: Rebuilt, game: Node, i: int, node: Node, sides: seq<string>,
                      colourOf: string -> Colour): (Rebuilt, BattleStatus)
  {
    var (st1, s0, ti) := JoinTeam(st, game, i, node, sides, colourOf);
    var st2 := if ti.exist then WithAlly(st1, game, s0.spectator, ti.allyTeam) else st1;
    (st2, if ti.exist then TeamStatus(s0, ti) else s0)
  }

  /** WithAlly reads and writes only the ally sizes, the ally cache and the rectangles. */
  lemma WithAllyFrame(a: Rebuilt, b: Rebuilt, game: Node, spectator: bool, ally: int)
    requires a.allySizes == b.allySizes && a.parsedAllies == b.parsedAllies && a.rects == b.rects
    ensures var wa := WithAlly(a, game, spectator, ally);
      var wb := WithAlly(b, game, spectator, ally);
      wa.allySizes == wb.allySizes && wa.parsedAllies == wb.parsedAllies && wa.rects == wb.rects
      && wa == a.(allySizes := wa.allySizes, parsedAllies := wa.parsedAllies, rects := wa.rects)
  {
  }

  /** One iteration of the player loop. */
  function PlayerStep(st: Rebuilt, game: Node, i: int, sides: seq<string>, colourOf: string -> Colour): Rebuilt {
    var node := PlayerSection(game, i);
    if node.None? then st
    else
      var (st2, status) := SeatPlayer(st, game, i, node.value, sides, colourOf);
      var u := User(GetString(node.value, "Name", ""), status);
      st2.(users := AddUser(st2.users, u), demoUsers := st2.demoUsers[u.nick := u])
  }

  /** The state after the first n player sections. */
  function ScriptFold(st: Rebuilt, game: Node, n: int, sides: seq<string>, colourOf: string -> Colour): Rebuilt
    decreases n
  {
    if n <= 0 then st else PlayerStep(ScriptFold(st, game, n - 1, sides, colourOf), game, n - 1, sides, colourOf)
  }

  /** An AI section takes the place of the PLAYER section with the same number: the user
      created carries the AI's name and short name, and is never counted as ready. */
  lemma BotSectionWins(st: Rebuilt, game: Node, i: int, sides: seq<string>, colourOf: string -> Colour)
    requires Section(game, "AI", i).Some?
    ensures var bot := Section(game, "AI", i).value;
            var r := PlayerStep(st, game, i, sides, colourOf);
            var nick := GetString(bot, "Name", "");
            nick in r.demoUsers && r.demoUsers[nick] in r.users
            && r.demoUsers[nick].status.aiShortName == GetString(bot, "ShortName", "")
            && r.ready == st.ready && r.sync == st.sync && r.ok == st.ok
  {
    var node := PlayerSection(game, i);
    assert node == Section(game, "AI", i);
  }

  /** A cached team info that exists is never read again or changed by one iteration. */
  lemma TeamCacheStep(st: Rebuilt, game: Node, i: int, sides: seq<string>, colourOf: string -> Colour, t: int)
    requires t in st.parsedTeams && st.parsedTeams[t].exist
    ensures var r := PlayerStep(st, game, i, sides, colourOf);
            t in r.parsedTeams && r.parsedTeams[t] == st.parsedTeams[t]
  {
    var node := PlayerSection(game, i);
    if node.Some? {
      var seated := SeatPlayer(st, game, i, node.value, sides, colourOf);
      assert seated.0.parsedTeams == JoinTeam(st, game, i, node.value, sides, colourOf).0.parsedTeams;
    }
  }

  /** Each TEAMn section is parsed at most once: once cached, the entry stays as read. */
  lemma {:induction false} TeamParsedOnce(st: Rebuilt, game: Node, n: int, sides: seq<string>,
                                          colourOf: string -> Colour, t: int)
    requires t in st.parsedTeams && st.parsedTeams[t].exist
    ensures var r := ScriptFold(st, game, n, sides, colourOf);
            t in r.parsedTeams && r.parsedTeams[t] == st.parsedTeams[t]
    decreases n
  {
    if n > 0 {
      TeamParsedOnce(st, game, n - 1, sides, colourOf, t);
      TeamCacheStep(ScriptFold(st, game, n - 1, sides, colourOf), game, n - 1, sides, colourOf, t);
      assert ScriptFold(st, game, n, sides, colourOf) == PlayerStep(ScriptFold(st, game, n - 1, sides, colourOf), game, n - 1, sides, colourOf);
    }
  }

  lemma AllyCacheStep(st: Rebuilt, game: Node, i: int, sides: seq<string>, colourOf: string -> Colour, a: int)
    requires a in st.parsedAllies && st.parsedAllies[a].exist
    ensures var r := PlayerStep(st, game, i, sides, colourOf);
            a in r.parsedAllies && r.parsedAllies[a] == st.parsedAllies[a]
  {
  }

  /** Each ALLYTEAMn section is parsed at most once: once cached, the entry stays as read. */
  lemma {:induction false} AllyParsedOnce(st: Rebuilt, game: Node, n: int, sides: seq<string>,
                                          colourOf: string -> Colour, a: int)
    requires a in st.parsedAllies && st.parsedAllies[a].exist
    ensures var r := ScriptFold(st, game, n, sides, colourOf);
            a in r.parsedAllies && r.parsedAllies[a] == st.parsedAllies[a]
    decreases n
  {
    if n > 0 {
      AllyParsedOnce(st, game, n - 1, sides, colourOf, a);
      AllyCacheStep(ScriptFold(st, game, n - 1, sides, colourOf), game, n - 1, sides, colourOf, a);
      assert ScriptFold(st, game, n, sides, colourOf) == PlayerStep(ScriptFold(st, game, n - 1, sides, colourOf), game, n - 1, sides, colourOf);
    }
  }

  /** Every rectangle of `after` is either one `before` already had or one whose left
      edge equals its top edge. */
  ghost predicate RectsFromScript(before: StartRects.Rects, after: StartRects.Rects) {
    forall a :: a in after ==> (a in before && after[a] == before[a]) || after[a].left == after[a].top
  }

  lemma RectsStep(st: Rebuilt, game: Node, i: int, sides: seq<string>, colourOf: string -> Colour)
    ensures RectsFromScript(st.rects, PlayerStep(st, game, i, sides, colourOf).rects)
  {
    var node := PlayerSection(game, i);
    if node.Some? {
      SeatRects(st, game, i, node.value, sides, colourOf);
    }
  }

  lemma SeatRects(st: Rebuilt, game: Node, i: int, node: Node, sides: seq<string>, colourOf: string -> Colour)
    ensures RectsFromScript(st.rects, SeatPlayer(st, game, i, node, sides, colourOf).0.rects)
  {
    var (st1, s0, ti) := JoinTeam(st, game, i, node, sides, colourOf);
    if ti.exist {
      AllyRects(st1, game, s0.spectator, ti.allyTeam);
    }
  }

  /** WithAlly adds at most one rectangle, with its left edge equal to its top edge. */
  lemma AllyRects(st: Rebuilt, game: Node, spectator: bool, ally: int)
    ensures RectsFromScript(st.rects, WithAlly(st, game, spectator, ally).rects)
  {
  }

  /** Every start rectangle the script adds has its left edge equal to its top edge. */
  lemma {:induction false} RectsLeftFromTop(st: Rebuilt, game: Node, n: int, sides: seq<string>,
                                            colourOf: string -> Colour)
    ensures RectsFromScript(st.rects, ScriptFold(st, game, n, sides, colourOf).rects)
    decreases n
  {
    if n > 0 {
      var prev := ScriptFold(st, game, n - 1, sides, colourOf);
      RectsLeftFromTop(st, game, n - 1, sides, colourOf);
      RectsStep(prev, game, n - 1, sides, colourOf);
      assert ScriptFold(st, game, n, sides, colourOf) == PlayerStep(ScriptFold(st, game, n - 1, sides, colourOf), game, n - 1, sides, colourOf);
    }
  }

  /** The ready, sync and ok counters move together: every human player of the script is
      both ready and synced. */
  lemma {:induction false} CountersAgree(st: Rebuilt, game: Node, n: int, sides: seq<string>,
                                         colourOf: string -> Colour)
    requires st.ready == st.sync == st.ok
    ensures var r := ScriptFold(st, game, n, sides, colourOf);
            r.ready == r.sync == r.ok && r.ready >= st.ready
    decreases n
  {
    if n > 0 {
      var prev := ScriptFold(st, game, n - 1, sides, colourOf);
      CountersAgree(st, game, n - 1, sides, colourOf);
      CountersStep(prev, game, n - 1, sides, colourOf);
      assert ScriptFold(st, game, n, sides, colourOf) == PlayerStep(prev, game, n - 1, sides, colourOf);
    }
  }

  /** One player section adds the same to the ready, sync and ok counters, and at most
      one spectator. */
  lemma CountersStep(prev: Rebuilt, game: Node, i: int, sides: seq<string>, colourOf: string -> Colour)
    ensures var r := PlayerStep(prev, game, i, sides, colourOf);
      r.ready - prev.ready == r.sync - prev.sync == r.ok - prev.ok >= 0
      && prev.spectators <= r.spectators <= prev.spectators + 1
  {
    var node := PlayerSection(game, i);
    if node.Some? {
      var joined := JoinTeam(prev, game, i, node.value, sides, colourOf);
      var seated := SeatPlayer(prev, game, i, node.value, sides, colourOf);
      assert seated.0.ready == joined.0.ready && seated.0.sync == joined.0.sync;
      assert seated.0.ok == joined.0.ok && seated.0.spectators == joined.0.spectators;
    }
  }

  /** Each player section adds at most one spectator. */
  lemma {:induction false} SpectatorsBounded(st: Rebuilt, game: Node, n: int, sides: seq<string>,
                                             colourOf: string -> Colour)
    ensures var r := ScriptFold(st, game, n, sides, colourOf);
            st.spectators <= r.spectators <= st.spectators + (if n < 0 then 0 else n)
    decreases n
  {
    if n > 0 {
      SpectatorsBounded(st, game, n - 1, sides, colourOf);
      CountersStep(ScriptFold(st, game, n - 1, sides, colourOf), game, n - 1, sides, colourOf);
      assert ScriptFold(st, game, n, sides, colourOf) == PlayerStep(ScriptFold(st, game, n - 1, sides, colourOf), game, n - 1, sides, colourOf);
    }
  }

  /** Every user the script adds comes from the demo, ready and synced, and is the one
      stored under its nick among the demo users. */
  ghost predicate UsersFromScript(st: Rebuilt, r: Rebuilt) {
    forall u :: u in r.users ==>
      u in st.users
      || (u.status.isFromDemo && u.status.ready && Synced(u.status)
          && u.nick in r.demoUsers && r.demoUsers[u.nick] == u)
  }

  lemma {:induction false} DemoUsers(st: Rebuilt, game: Node, n: int, sides: seq<string>,
                                     colourOf: string -> Colour)
    requires UniqueNicks(st.users) && InNickOrder(st.users)
    ensures UsersFromScript(st, ScriptFold(st, game, n, sides, colourOf))
    ensures UniqueNicks(ScriptFold(st, game, n, sides, colourOf).users)
    ensures InNickOrder(ScriptFold(st, game, n, sides, colourOf).users)
    decreases n
  {
    if n > 0 {
      DemoUsers(st, game, n - 1, sides, colourOf);
      DemoStep(st, ScriptFold(st, game, n - 1, sides, colourOf), game, n - 1, sides, colourOf);
      assert ScriptFold(st, game, n, sides, colourOf) == PlayerStep(ScriptFold(st, game, n - 1, sides, colourOf), game, n - 1, sides, colourOf);
    }
  }

  /** One player section keeps every user either one st had or a demo user stored
      under its nick. */
  lemma DemoStep(st: Rebuilt, prev: Rebuilt, game: Node, i: int, sides: seq<string>, colourOf: string -> Colour)
    requires UniqueNicks(prev.users) && InNickOrder(prev.users) && UsersFromScript(st, prev)
    ensures UniqueNicks(PlayerStep(prev, game, i, sides, colourOf).users)
    ensures InNickOrder(PlayerStep(prev, game, i, sides, colourOf).users)
    ensures UsersFromScript(st, PlayerStep(prev, game, i, sides, colourOf))
  {
    var node := PlayerSection(game, i);
    if node.Some? {
      var p := SeatPlayer(prev, game, i, node.value, sides, colourOf);
      SeatKeepsUsers(prev, game, i, node.value, sides, colourOf);
      var u := User(GetString(node.value, "Name", ""), p.1);
      var r := PlayerStep(prev, game, i, sides, colourOf);
      assert r.users == AddUser(prev.users, u) && r.demoUsers == prev.demoUsers[u.nick := u];
      AddUserInNickOrder(prev.users, u);
      forall v | v in r.users
        ensures v in st.users
          || (v.status.isFromDemo && v.status.ready && Synced(v.status)
              && v.nick in r.demoUsers && r.demoUsers[v.nick] == v)
      {
        if v != u && v !in st.users {
          assert v in prev.users;
        }
      }
    }
  }

  /** Seating a player touches neither the user list nor the demo users, and the status
      it hands out is from the demo, ready and synced. */
  lemma SeatKeepsUsers(st: Rebuilt, game: Node, i: int, node: Node, sides: seq<string>, colourOf: string -> Colour)
    ensures var p := SeatPlayer(st, game, i, node, sides, colourOf);
      p.0.users == st.users && p.0.demoUsers == st.demoUsers
      && p.1.isFromDemo && p.1.ready && Synced(p.1)
  {
  }

  /** The loop keeps the occupancy maps valid. */
  lemma {:induction false} OccupancyStaysValid(st: Rebuilt, game: Node, n: int, sides: seq<string>,
                                               colourOf: string -> Colour)
    requires Occupancy.Valid(st.teamsSizes) && Occupancy.Valid(st.allySizes) && StartRects.Valid(st.rects)
    ensures var r := ScriptFold(st, game, n, sides, colourOf);
            Occupancy.Valid(r.teamsSizes) && Occupancy.Valid(r.allySizes) && StartRects.Valid(r.rects)
    decreases n
  {
    if n > 0 {
      OccupancyStaysValid(st, game, n - 1, sides, colourOf);
      OccupancyStep(ScriptFold(st, game, n - 1, sides, colourOf), game, n - 1, sides, colourOf);
      assert ScriptFold(st, game, n, sides, colourOf) == PlayerStep(ScriptFold(st, game, n - 1, sides, colourOf), game, n - 1, sides, colourOf);
    }
  }

  /** A player's team step keeps the team occupancy well formed and leaves the ally
      occupancy and the rectangles alone. */
  lemma JoinTeamKeepsValid(prev: Rebuilt, game: Node, i: int, node: Node, sides: seq<string>,
                           colourOf: string -> Colour)
    requires Occupancy.Valid(prev.teamsSizes)
    ensures var st1 := JoinTeam(prev, game, i, node, sides, colourOf).0;
            Occupancy.Valid(st1.teamsSizes) && st1.allySizes == prev.allySizes && st1.rects == prev.rects
  {
  }

  /** An ally step keeps the ally occupancy and the rectangles well formed and leaves the
      team occupancy alone. */
  lemma WithAllyKeepsValid(st: Rebuilt, game: Node, spectator: bool, ally: int)
    requires Occupancy.Valid(st.allySizes) && StartRects.Valid(st.rects)
    ensures var w := WithAlly(st, game, spectator, ally);
            Occupancy.Valid(w.allySizes) && StartRects.Valid(w.rects) && w.teamsSizes == st.teamsSizes
  {
  }

  /** One player section keeps the occupancy maps and the rectangles well formed. */
  lemma OccupancyStep(prev: Rebuilt, game: Node, i: int, sides: seq<string>, colourOf: string -> Colour)
    requires Occupancy.Valid(prev.teamsSizes) && Occupancy.Valid(prev.allySizes) && StartRects.Valid(prev.rects)
    ensures var r := PlayerStep(prev, game, i, sides, colourOf);
            Occupancy.Valid(r.teamsSizes) && Occupancy.Valid(r.allySizes) && StartRects.Valid(r.rects)
  {
    var node := PlayerSection(game, i);
    if node.Some? {
      var st2 := SeatPlayer(prev, game, i, node.value, sides, colourOf).0;
      var r := PlayerStep(prev, game, i, sides, colourOf);
      assert r.teamsSizes == st2.teamsSizes && r.allySizes == st2.allySizes && r.rects == st2.rects;
      var (st1, s0, ti) := JoinTeam(prev, game, i, node.value, sides, colourOf);
      JoinTeamKeepsValid(prev, game, i, node.value, sides, colourOf);
      if ti.exist {
        assert st2 == WithAlly(st1, game, s0.spectator, ti.allyTeam);
        WithAllyKeepsValid(st1, game, s0.spectator, ti.allyTeam);
      } else {
        assert st2 == st1;
      }
    }
  }
}
