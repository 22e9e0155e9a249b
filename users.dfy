/** Battle participants as values: a user's nick and battle status (User, UserBattleStatus),
    and the ordered user list of a battle (UserList). */
module Users {
  import opened Text

  datatype Colour = Colour(red: int, green: int, blue: int)

  datatype Position = Position(x: int, y: int)

  /** The sync field holds SYNC_UNKNOWN, SYNC_SYNCED or SYNC_UNSYNCED; the battle code
      only ever tests it for being non-zero. */
  const SYNC_UNKNOWN: int := 0

  datatype BattleStatus = BattleStatus(
    team: int,
    ally: int,
    spectator: bool,
    ready: bool,
    sync: int,
    colour: Colour,
    handicap: int,
    side: int,
    pos: Position,
    aiShortName: string,
    aiVersion: string,
    owner: string,
    isFromDemo: bool)

  /** UserBattleStatus::IsBot: an AI is a status carrying an AI short name. */
  predicate IsBot(s: BattleStatus) {
    s.aiShortName != ""
  }

  /** `if (bs.sync)` in the source. */
  predicate Synced(s: BattleStatus) {
    s.sync != SYNC_UNKNOWN
  }

  /** A human who plays: counted by the ready/sync aggregates. */
  predicate IsActiveHuman(s: BattleStatus) {
    !IsBot(s) && !s.spectator
  }

  const DefaultStatus := BattleStatus(0, 0, false, false, SYNC_UNKNOWN, Colour(0, 0, 0), 0, 0,
                                      Position(-1, -1), "", "", "", false)

  datatype User = User(nick: string, status: BattleStatus)

  ghost predicate UniqueNicks(us: seq<User>) {
    forall i, j :: 0 <= i < j < |us| ==> us[i].nick != us[j].nick
  }

  function Nicks(us: seq<User>): set<string> {
    set i | 0 <= i < |us| :: us[i].nick
  }

  /** A list holds at least as many users as distinct nicks. */
  lemma {:induction false} NicksBound(us: seq<User>)
    ensures |Nicks(us)| <= |us|
  {
    if us != [] {
      var init := us[..|us| - 1];
      NicksBound(init);
      assert Nicks(us) == Nicks(init) + {us[|us| - 1].nick} by {
        forall n | n in Nicks(us) ensures n in Nicks(init) + {us[|us| - 1].nick} {
          var i :| 0 <= i < |us| && us[i].nick == n;
          if i < |us| - 1 {
            assert init[i].nick == n;
          }
        }
        forall n | n in Nicks(init) ensures n in Nicks(us) {
          var i :| 0 <= i < |init| && init[i].nick == n;
          assert us[i].nick == n;
        }
      }
    }
  }

  /** Position of the user with this nick, or -1. */
  function IndexOfNick(us: seq<User>, nick: string): (k: int)
    ensures -1 <= k < |us|
    ensures k >= 0 ==> us[k].nick == nick && forall j :: 0 <= j < k ==> us[j].nick != nick
    ensures k < 0 ==> nick !in Nicks(us)
  {
    if us == [] then -1
    else if us[0].nick == nick then 0
    else
      var k := IndexOfNick(us[1..], nick);
      assert forall j :: 1 <= j < |us| ==> us[j] == us[1..][j - 1];
      if k < 0 then -1 else k + 1
  }

  lemma NicksCons(x: User, rest: seq<User>)
    ensures Nicks([x] + rest) == {x.nick} + Nicks(rest)
  {
    var r := [x] + rest;
    forall n | n in Nicks(r) ensures n in {x.nick} + Nicks(rest) {
      var i :| 0 <= i < |r| && r[i].nick == n;
      if i > 0 {
        assert r[i] == rest[i - 1];
      }
    }
    forall n | n in Nicks(rest) ensures n in Nicks(r) {
      var i :| 0 <= i < |rest| && rest[i].nick == n;
      assert r[i + 1] == rest[i];
    }
    assert r[0] == x;
  }

  /** A list with one more user at the front has distinct nicks exactly when the rest
      has and does not list that user's nick. */
  lemma UniqueCons(x: User, rest: seq<User>)
    ensures UniqueNicks([x] + rest) <==> x.nick !in Nicks(rest) && UniqueNicks(rest)
  {
    var r := [x] + rest;
    if UniqueNicks(r) {
      forall i, j | 0 <= i < j < |rest| ensures rest[i].nick != rest[j].nick {
        assert r[i + 1] == rest[i] && r[j + 1] == rest[j];
      }
      forall i | 0 <= i < |rest| ensures rest[i].nick != x.nick {
        assert r[0] == x && r[i + 1] == rest[i];
      }
      assert x.nick !in Nicks(rest) && UniqueNicks(rest);
    }
    if x.nick !in Nicks(rest) && UniqueNicks(rest) {
      forall i, j | 0 <= i < j < |r| ensures r[i].nick != r[j].nick {
        if i == 0 {
          assert r[0] == x && r[j] == rest[j - 1] && rest[j - 1].nick in Nicks(rest);
        } else {
          assert r[i] == rest[i - 1] && r[j] == rest[j - 1];
        }
      }
      assert UniqueNicks(r);
    }
  }

  lemma NicksSnoc(us: seq<User>, x: User)
    ensures Nicks(us + [x]) == Nicks(us) + {x.nick}
  {
    var r := us + [x];
    forall n | n in Nicks(r) ensures n in Nicks(us) + {x.nick} {
      var i :| 0 <= i < |r| && r[i].nick == n;
      if i < |us| {
        assert r[i] == us[i];
      }
    }
    forall n | n in Nicks(us) ensures n in Nicks(r) {
      var i :| 0 <= i < |us| && us[i].nick == n;
      assert r[i] == us[i];
    }
    assert r[|us|] == x;
  }

  /** UserList keeps its users in a std::map keyed by nick, so GetUser(i) visits them
      in nick order. */
  ghost predicate InNickOrder(us: seq<User>) {
    forall i, j :: 0 <= i < j < |us| ==> LexLe(us[i].nick, us[j].nick)
  }

  /** Where a new nick goes: before the first listed nick it does not sort after. */
  function InsertPos(us: seq<User>, nick: string): (p: nat)
    ensures p <= |us|
    ensures forall i :: 0 <= i < p ==> !LexLe(nick, us[i].nick)
    ensures p < |us| ==> LexLe(nick, us[p].nick)
  {
    if us == [] || LexLe(nick, us[0].nick) then 0
    else
      var p := InsertPos(us[1..], nick);
      assert forall i :: 1 <= i < |us| ==> us[i] == us[1..][i - 1];
      p + 1
  }

  /** In a list in nick order, every nick from the insertion point on sorts at or after
      the new one, and every nick before it sorts strictly before. */
  lemma InsertPosSplits(us: seq<User>, nick: string)
    requires InNickOrder(us)
    ensures var p := InsertPos(us, nick);
      (forall i :: 0 <= i < p ==> LexLe(us[i].nick, nick) && us[i].nick != nick)
      && (forall i :: p <= i < |us| ==> LexLe(nick, us[i].nick))
  {
    var p := InsertPos(us, nick);
    forall i | 0 <= i < p ensures LexLe(us[i].nick, nick) && us[i].nick != nick {
      LexTotal(us[i].nick, nick);
      if us[i].nick == nick {
        LexTotal(nick, nick);
      }
    }
    forall i | p <= i < |us| ensures LexLe(nick, us[i].nick) {
      if i > p {
        LexTransitive(nick, us[p].nick, us[i].nick);
      }
    }
  }

  /** UserList::AddUser: a user whose nick is already listed replaces that entry;
      otherwise the user is inserted among the others in nick order. */
  function AddUser(us: seq<User>, u: User): (r: seq<User>)
    ensures u in r
    ensures Nicks(r) == Nicks(us) + {u.nick}
    ensures UniqueNicks(us) ==> UniqueNicks(r)
    ensures forall v :: v in r ==> v in us || v == u
    ensures u.nick in Nicks(us) ==> |r| == |us|
    ensures u.nick !in Nicks(us) ==> |r| == |us| + 1
  {
    var k := IndexOfNick(us, u.nick);
    if k < 0 then
      var p := InsertPos(us, u.nick);
      var r := us[..p] + [u] + us[p..];
      InsertedNicks(us, p, u);
      r
    else
      var r := us[k := u];
      assert r[k] == u;
      assert forall n :: n in Nicks(r) ==> n in Nicks(us) + {u.nick} by {
        forall n | n in Nicks(r) ensures n in Nicks(us) + {u.nick} {
          var i :| 0 <= i < |r| && r[i].nick == n;
          assert i != k ==> us[i].nick == n;
        }
      }
      assert forall n :: n in Nicks(us) ==> n in Nicks(r) by {
        forall n | n in Nicks(us) ensures n in Nicks(r) {
          var i :| 0 <= i < |us| && us[i].nick == n;
          assert r[i].nick == n;
        }
      }
      r
  }

  /** AddUser keeps a list in nick order: a new nick goes where std::map puts it. */
  lemma AddUserInNickOrder(us: seq<User>, u: User)
    requires InNickOrder(us)
    ensures InNickOrder(AddUser(us, u))
  {
    var r := AddUser(us, u);
    var k := IndexOfNick(us, u.nick);
    if k < 0 {
      var p := InsertPos(us, u.nick);
      InsertPosSplits(us, u.nick);
      InsertedInOrder(us, p, u);
    } else {
      forall i, j | 0 <= i < j < |r| ensures LexLe(r[i].nick, r[j].nick) {
        assert r[i].nick == us[i].nick && r[j].nick == us[j].nick;
      }
    }
  }

  /** Adding a user whose nick is not listed adds exactly that user. */
  lemma AddUserAdds(us: seq<User>, u: User)
    requires u.nick !in Nicks(us)
    ensures multiset(AddUser(us, u)) == multiset(us) + multiset{u}
  {
    var p := InsertPos(us, u.nick);
    assert us == us[..p] + us[p..];
  }

  /** Users are listed by nick, not by arrival: a bot "abot" added after a human "zed"
      comes first. */
  lemma ListedByNick(zed: BattleStatus, abot: BattleStatus)
    ensures var us := AddUser(AddUser([], User("zed", zed)), User("abot", abot));
      |us| == 2 && IndexOfNick(us, "abot") == 0 && IndexOfNick(us, "zed") == 1
  {
  }

  /** Inserting a user whose nick is not listed adds that nick and keeps nicks distinct. */
  lemma InsertedNicks(us: seq<User>, p: nat, u: User)
    requires p <= |us| && u.nick !in Nicks(us)
    ensures var r := us[..p] + [u] + us[p..];
      Nicks(r) == Nicks(us) + {u.nick} && (UniqueNicks(us) ==> UniqueNicks(r))
  {
    var r := us[..p] + [u] + us[p..];
    assert forall i :: 0 <= i < p ==> r[i] == us[i];
    assert forall i :: p < i < |r| ==> r[i] == us[i - 1];
    assert r[p] == u;
    forall n | n in Nicks(r) ensures n in Nicks(us) + {u.nick} {
      var i :| 0 <= i < |r| && r[i].nick == n;
      if i < p {
        assert us[i].nick == n;
      } else if i > p {
        assert us[i - 1].nick == n;
      }
    }
    forall n | n in Nicks(us) ensures n in Nicks(r) {
      var i :| 0 <= i < |us| && us[i].nick == n;
      if i < p {
        assert r[i].nick == n;
      } else {
        assert r[i + 1].nick == n;
      }
    }
    if UniqueNicks(us) {
      forall i, j | 0 <= i < j < |r| ensures r[i].nick != r[j].nick {
        var i', j' := if i < p then i else i - 1, if j < p then j else j - 1;
        if i == p {
          assert r[j] == us[j'] && us[j'].nick in Nicks(us);
        } else if j == p {
          assert r[i] == us[i'] && us[i'].nick in Nicks(us);
        } else {
          assert r[i] == us[i'] && r[j] == us[j'] && i' < j';
        }
      }
    }
  }

  /** Inserting at the split point of a list in nick order keeps it in nick order. */
  lemma InsertedInOrder(us: seq<User>, p: nat, u: User)
    requires p <= |us| && InNickOrder(us)
    requires forall i :: 0 <= i < p ==> LexLe(us[i].nick, u.nick)
    requires forall i :: p <= i < |us| ==> LexLe(u.nick, us[i].nick)
    ensures InNickOrder(us[..p] + [u] + us[p..])
  {
    var r := us[..p] + [u] + us[p..];
    assert forall i :: 0 <= i < p ==> r[i] == us[i];
    assert forall i :: p < i < |r| ==> r[i] == us[i - 1];
    assert r[p] == u;
    forall i, j | 0 <= i < j < |r| ensures LexLe(r[i].nick, r[j].nick) {
      var i', j' := if i < p then i else i - 1, if j < p then j else j - 1;
      if i == p {
        assert r[j] == us[j'];
      } else if j == p {
        assert r[i] == us[i'];
      } else {
        assert r[i] == us[i'] && r[j] == us[j'] && i' < j';
      }
    }
  }

  /** UserList::RemoveUser: drop the user with this nick, keeping the others in order. */
  function RemoveNick(us: seq<User>, nick: string): (r: seq<User>)
    ensures Nicks(r) == Nicks(us) - {nick}
    ensures UniqueNicks(us) ==> UniqueNicks(r)
    ensures forall v :: v in r <==> v in us && v.nick != nick
    ensures |r| <= |us|
  {
    if us == [] then []
    else
      var rest := RemoveNick(us[1..], nick);
      assert us == [us[0]] + us[1..];
      NicksCons(us[0], us[1..]);
      UniqueCons(us[0], us[1..]);
      if us[0].nick == nick then rest
      else
        NicksCons(us[0], rest);
        UniqueCons(us[0], rest);
        [us[0]] + rest
  }

  /** RemoveNick keeps a list in nick order. */
  lemma {:induction false} RemoveNickInNickOrder(us: seq<User>, nick: string)
    requires InNickOrder(us)
    ensures InNickOrder(RemoveNick(us, nick))
  {
    if us != [] {
      assert us == [us[0]] + us[1..];
      OrderCons(us[0], us[1..]);
      RemoveNickInNickOrder(us[1..], nick);
      if us[0].nick != nick {
        OrderCons(us[0], RemoveNick(us[1..], nick));
      }
    }
  }

  /** A list with one more user at the front is in nick order exactly when the rest is
      and no nick of the rest sorts before the new one. */
  lemma OrderCons(x: User, rest: seq<User>)
    ensures InNickOrder([x] + rest) <==> (forall v :: v in rest ==> LexLe(x.nick, v.nick)) && InNickOrder(rest)
  {
    var r := [x] + rest;
    assert forall i :: 0 <= i < |rest| ==> r[i + 1] == rest[i];
    if InNickOrder(r) {
      forall v | v in rest ensures LexLe(x.nick, v.nick) {
        var i :| 0 <= i < |rest| && rest[i] == v;
        assert r[0] == x && r[i + 1] == v;
      }
      forall i, j | 0 <= i < j < |rest| ensures LexLe(rest[i].nick, rest[j].nick) {
        assert r[i + 1] == rest[i] && r[j + 1] == rest[j];
      }
    }
    if (forall v :: v in rest ==> LexLe(x.nick, v.nick)) && InNickOrder(rest) {
      forall i, j | 0 <= i < j < |r| ensures LexLe(r[i].nick, r[j].nick) {
        if i == 0 {
          assert r[j] == rest[j - 1] && rest[j - 1] in rest;
        } else {
          assert r[i] == rest[i - 1] && r[j] == rest[j - 1];
        }
      }
    }
  }

  /** The status of the listed user with this nick. */
  function StatusOf(us: seq<User>, nick: string): BattleStatus
    requires nick in Nicks(us)
  {
    us[IndexOfNick(us, nick)].status
  }

  /** The list with the status of the user with this nick replaced, as a write to
      `user.BattleStatus()` does. */
  function UpdateStatus(us: seq<User>, nick: string, s: BattleStatus): (r: seq<User>)
    requires nick in Nicks(us)
    ensures |r| == |us| && Nicks(r) == Nicks(us)
    ensures UniqueNicks(us) ==> UniqueNicks(r)
    ensures InNickOrder(us) ==> InNickOrder(r)
    ensures r[IndexOfNick(us, nick)] == User(nick, s)
    ensures forall i :: 0 <= i < |us| && i != IndexOfNick(us, nick) ==> r[i] == us[i]
    ensures IndexOfNick(r, nick) == IndexOfNick(us, nick) && StatusOf(r, nick) == s
  {
    var k := IndexOfNick(us, nick);
    var r := us[k := User(nick, s)];
    assert r == AddUser(us, User(nick, s));
    assert InNickOrder(us) ==> InNickOrder(r) by {
      if InNickOrder(us) {
        AddUserInNickOrder(us, User(nick, s));
      }
    }
    r
  }

  /** The battle status of a user just created (`User(nick)`): team and ally 0, not a
      spectator, not ready, sync unknown, no AI, no owner, no start position (-1, -1). */
  const NewStatus: BattleStatus :=
    BattleStatus(0, 0, false, false, SYNC_UNKNOWN, Colour(0, 0, 0), 0, 0, Position(-1, -1), "", "", "", false)

  /** User::UpdateBattleStatus: the slot, readiness, sync, colour, handicap and side
      fields come from the update; the AI name, the AI version and the owner only when the
      update carries one; each start coordinate only when it is positive; the demo mark
      stays. A bot therefore stays a bot whatever update it receives. */
  function Merged(cur: BattleStatus, s: BattleStatus): (r: BattleStatus)
    ensures IsBot(r) <==> IsBot(cur) || IsBot(s)
    ensures r.team == s.team && r.ally == s.ally && r.spectator == s.spectator
         && r.ready == s.ready && r.sync == s.sync
    ensures r.pos.x == s.pos.x || r.pos.x == cur.pos.x
    ensures r.pos.y == s.pos.y || r.pos.y == cur.pos.y
  {
    s.(aiShortName := if s.aiShortName != "" then s.aiShortName else cur.aiShortName,
       aiVersion := if s.aiVersion != "" then s.aiVersion else cur.aiVersion,
       owner := if s.owner != "" then s.owner else cur.owner,
       pos := Position(if s.pos.x > 0 then s.pos.x else cur.pos.x, if s.pos.y > 0 then s.pos.y else cur.pos.y),
       isFromDemo := cur.isFromDemo)
  }

  /** An update that carries every optional field replaces the status, demo mark aside. */
  lemma MergedFull(cur: BattleStatus, s: BattleStatus)
    requires s.aiShortName != "" && s.aiVersion != "" && s.owner != "" && s.pos.x > 0 && s.pos.y > 0
    ensures Merged(cur, s) == s.(isFromDemo := cur.isFromDemo)
  {
  }

  /** Receiving the same update twice is receiving it once. */
  lemma MergedIdempotent(cur: BattleStatus, s: BattleStatus)
    ensures Merged(Merged(cur, s), s) == Merged(cur, s)
  {
  }

  /** A later update overrides an earlier one wherever the later one carries a value. */
  lemma MergedTwice(cur: BattleStatus, a: BattleStatus, b: BattleStatus)
    ensures var r := Merged(Merged(cur, a), b);
      r.team == b.team && r.ally == b.ally && r.spectator == b.spectator && r.ready == b.ready
      && (b.aiShortName != "" ==> r.aiShortName == b.aiShortName)
      && (b.aiShortName == "" && a.aiShortName != "" ==> r.aiShortName == a.aiShortName)
      && (b.pos.x > 0 ==> r.pos.x == b.pos.x) && (b.pos.y > 0 ==> r.pos.y == b.pos.y)
  {
  }

  /** A bot updated with a status that names no AI stays a bot: the update does not
      make it a human. */
  lemma BotStaysBot(cur: BattleStatus, s: BattleStatus)
    requires IsBot(cur) && !IsBot(s)
    ensures IsBot(Merged(cur, s)) && Merged(cur, s).aiShortName == cur.aiShortName
  {
  }

  /** A second status update of the same user overrides the first. */
  lemma UpdateStatusTwice(us: seq<User>, nick: string, a: BattleStatus, b: BattleStatus)
    requires nick in Nicks(us)
    ensures UpdateStatus(UpdateStatus(us, nick, a), nick, b) == UpdateStatus(us, nick, b)
  {
  }

  lemma {:induction false} RemoveAbsent(us: seq<User>, nick: string)
    requires nick !in Nicks(us)
    ensures RemoveNick(us, nick) == us
  {
    if us != [] {
      assert us == [us[0]] + us[1..];
      NicksCons(us[0], us[1..]);
      RemoveAbsent(us[1..], nick);
    }
  }

  /** In a list of distinct nicks the first nick does not recur. */
  lemma HeadNotInTail(us: seq<User>)
    requires UniqueNicks(us) && us != []
    ensures us[0].nick !in Nicks(us[1..])
  {
    forall i | 0 <= i < |us[1..]| ensures us[1..][i].nick != us[0].nick {
      assert us[1..][i] == us[i + 1];
    }
  }

  /** In a list of distinct nicks, removing the nick at index j drops exactly that entry. */
  lemma {:induction false} RemoveNickAt(us: seq<User>, j: int)
    requires UniqueNicks(us) && 0 <= j < |us|
    ensures RemoveNick(us, us[j].nick) == us[..j] + us[j + 1..]
  {
    assert us == [us[0]] + us[1..];
    if j == 0 {
      HeadNotInTail(us);
      RemoveAbsent(us[1..], us[0].nick);
    } else {
      var tail, n := us[1..], us[j].nick;
      assert tail[j - 1] == us[j];
      RemoveNickPastHead(us, n);
      RemoveNickAt(tail, j - 1);
      SpliceAfterHead(us, j);
    }
  }

  lemma RemoveNickPastHead(us: seq<User>, n: string)
    requires us != [] && us[0].nick != n
    ensures RemoveNick(us, n) == [us[0]] + RemoveNick(us[1..], n)
  {
  }

  lemma SpliceAfterHead(us: seq<User>, j: int)
    requires 0 < j < |us|
    ensures [us[0]] + (us[1..][..j - 1] + us[1..][j..]) == us[..j] + us[j + 1..]
  {
    assert us[1..][..j - 1] == us[1..j];
    assert us[1..][j..] == us[j + 1..];
    assert us[..j] == [us[0]] + us[1..j];
  }

  /** The users that are not bots, in order. */
  function NonBots(us: seq<User>): (r: seq<User>)
    ensures forall u :: u in r <==> u in us && !IsBot(u.status)
  {
    if us == [] then []
    else NonBots(us[..|us| - 1]) + (if IsBot(us[|us| - 1].status) then [] else [us[|us| - 1]])
  }

  /** The nicks of the bots. */
  function BotNicks(us: seq<User>): set<string> {
    if us == [] then {}
    else BotNicks(us[..|us| - 1]) + (if IsBot(us[|us| - 1].status) then {us[|us| - 1].nick} else {})
  }

  /** The number of bots that are spectators. */
  function SpectatorBots(us: seq<User>): nat {
    if us == [] then 0
    else
      SpectatorBots(us[..|us| - 1])
      + (if IsBot(us[|us| - 1].status) && us[|us| - 1].status.spectator then 1 else 0)
  }

  /** Visiting one more user: the non-bots, the bot nicks and the spectator-bot count
      of the longer prefix follow from the shorter one and that user alone. */
  lemma BotsStep(us: seq<User>, k: nat)
    requires k < |us|
    ensures var p, u := us[..k], us[k];
      NonBots(us[..k + 1]) == NonBots(p) + (if IsBot(u.status) then [] else [u])
      && BotNicks(us[..k + 1]) == BotNicks(p) + (if IsBot(u.status) then {u.nick} else {})
      && SpectatorBots(us[..k + 1]) == SpectatorBots(p) + (if IsBot(u.status) && u.status.spectator then 1 else 0)
  {
    assert us[..k + 1][..k] == us[..k];
  }

  /** In a list of distinct nicks, the status of the user at index j is the one found by its nick. */
  lemma StatusAt(us: seq<User>, j: int)
    requires UniqueNicks(us) && 0 <= j < |us|
    ensures us[j].nick in Nicks(us) && IndexOfNick(us, us[j].nick) == j && StatusOf(us, us[j].nick) == us[j].status
  {
    assert us[j].nick in Nicks(us);
  }

  /** Splitting a concatenation at the end of its first part and the element after it. */
  lemma SpliceAt<T>(a: seq<T>, b: seq<T>)
    requires b != []
    ensures (a + b)[..|a|] == a && (a + b)[|a|] == b[0] && (a + b)[|a| + 1..] == b[1..]
    ensures a + b == (a + [b[0]]) + b[1..]
  {
    assert b == [b[0]] + b[1..];
  }
}
