/** What the battle's aggregates should be for a given user list: the reference
    definitions the status recount and the readiness checks are proved against. Each is
    defined over a prefix, growing by the last user, the way the loops visit the list. */
module Roster {
  import opened Users
  import Occupancy

  /** A human that plays: bots and spectators are left out of the ready/sync aggregates. */
  predicate ActiveHuman(s: BattleStatus) {
    !IsBot(s) && !s.spectator
  }

  /** Number of spectators (bots included). */
  function Spectators(us: seq<User>): (n: nat)
    ensures n <= |us|
  {
    if us == [] then 0
    else Spectators(us[..|us| - 1]) + (if us[|us| - 1].status.spectator then 1 else 0)
  }

  /** Number of active humans whose sync state is known. */
  function SyncedPlayers(us: seq<User>): (n: nat)
    ensures n <= |us|
  {
    if us == [] then 0
    else
      var s := us[|us| - 1].status;
      SyncedPlayers(us[..|us| - 1]) + (if ActiveHuman(s) && Synced(s) then 1 else 0)
  }

  /** Number of active humans that are both ready and synced. */
  function OkPlayers(us: seq<User>): (n: nat)
    ensures n <= SyncedPlayers(us)
  {
    if us == [] then 0
    else
      var s := us[|us| - 1].status;
      OkPlayers(us[..|us| - 1]) + (if ActiveHuman(s) && s.ready && Synced(s) then 1 else 0)
  }

  /** The ready count as the recount computes it: an active human that is also ready
      and a spectator (ibattle.cpp line 288). */
  function ReadyAsRecounted(us: seq<User>): nat
  {
    if us == [] then 0
    else
      var s := us[|us| - 1].status;
      ReadyAsRecounted(us[..|us| - 1]) + (if ActiveHuman(s) && s.ready && s.spectator then 1 else 0)
  }

  /** Number of active humans that are ready: what the join path counts. */
  function ReadyPlayers(us: seq<User>): (n: nat)
    ensures n <= |us|
  {
    if us == [] then 0
    else
      var s := us[|us| - 1].status;
      ReadyPlayers(us[..|us| - 1]) + (if ActiveHuman(s) && s.ready then 1 else 0)
  }

  /** The recount never counts anybody as ready, whatever the users' states. */
  lemma {:induction false} RecountedReadyIsZero(us: seq<User>)
    ensures ReadyAsRecounted(us) == 0
  {
    if us != [] {
      RecountedReadyIsZero(us[..|us| - 1]);
    }
  }

  /** The two ready counts disagree as soon as one active human is ready. */
  lemma {:induction false} RecountLosesReadyPlayers(us: seq<User>, i: int)
    requires 0 <= i < |us| && ActiveHuman(us[i].status) && us[i].status.ready
    ensures ReadyPlayers(us) > ReadyAsRecounted(us)
  {
    RecountedReadyIsZero(us);
    ReadyPositive(us, i);
  }

  lemma {:induction false} ReadyPositive(us: seq<User>, i: int)
    requires 0 <= i < |us| && ActiveHuman(us[i].status) && us[i].status.ready
    ensures ReadyPlayers(us) > 0
  {
    if i < |us| - 1 {
      ReadyPositive(us[..|us| - 1], i);
    }
  }

  /** The teams (or allies) of the active humans, in list order: the occupancy the
      recount rebuilds. */
  function ActiveSlots(us: seq<User>, byAlly: bool): (ks: seq<int>)
    ensures |ks| <= |us|
  {
    if us == [] then []
    else
      var s := us[|us| - 1].status;
      ActiveSlots(us[..|us| - 1], byAlly) + (if ActiveHuman(s) then [if byAlly then s.ally else s.team] else [])
  }

  /** The team (or ally) sizes the recount rebuilds from scratch. */
  function RecountedSizes(us: seq<User>, byAlly: bool): Occupancy.Sizes {
    Occupancy.Tally(ActiveSlots(us, byAlly))
  }

  /** The number of active humans on team (or ally) k. */
  function ActiveOn(us: seq<User>, byAlly: bool, k: int): (n: nat)
    ensures n <= |us|
  {
    if us == [] then 0
    else
      var s := us[|us| - 1].status;
      ActiveOn(us[..|us| - 1], byAlly, k)
        + (if ActiveHuman(s) && (if byAlly then s.ally else s.team) == k then 1 else 0)
  }

  lemma {:induction false} ActiveSlotsCount(us: seq<User>, byAlly: bool, k: int)
    ensures multiset(ActiveSlots(us, byAlly))[k] == ActiveOn(us, byAlly, k)
  {
    if us != [] {
      var init := us[..|us| - 1];
      ActiveSlotsCount(init, byAlly, k);
      var s := us[|us| - 1].status;
      var tail := if ActiveHuman(s) then [if byAlly then s.ally else s.team] else [];
      assert multiset(ActiveSlots(us, byAlly)) == multiset(ActiveSlots(init, byAlly)) + multiset(tail);
    }
  }

  /** The rebuilt occupancy stores, for every team (or ally), exactly the number of
      active humans on it, and has an entry only where that number is positive;
      bots are never counted. */
  lemma RecountedSizesMeaning(us: seq<User>, byAlly: bool)
    ensures Occupancy.Valid(RecountedSizes(us, byAlly))
    ensures forall k :: Occupancy.Count(RecountedSizes(us, byAlly), k) == ActiveOn(us, byAlly, k)
    ensures forall k :: k in RecountedSizes(us, byAlly) <==> ActiveOn(us, byAlly, k) > 0
  {
    Occupancy.TallyCounts(ActiveSlots(us, byAlly));
    forall k ensures Occupancy.Count(RecountedSizes(us, byAlly), k) == ActiveOn(us, byAlly, k) {
      ActiveSlotsCount(us, byAlly, k);
    }
  }

  /** Visiting one more user: each aggregate of the longer prefix is the one of the
      shorter prefix plus that user's own contribution. */
  lemma RecountStep(us: seq<User>, i: nat)
    requires i < |us|
    ensures var p, s := us[..i], us[i].status;
      Spectators(us[..i + 1]) == Spectators(p) + (if s.spectator then 1 else 0)
      && SyncedPlayers(us[..i + 1]) == SyncedPlayers(p) + (if ActiveHuman(s) && Synced(s) then 1 else 0)
      && ReadyAsRecounted(us[..i + 1]) == ReadyAsRecounted(p) + (if ActiveHuman(s) && s.ready && s.spectator then 1 else 0)
      && OkPlayers(us[..i + 1]) == OkPlayers(p) + (if ActiveHuman(s) && s.ready && Synced(s) then 1 else 0)
      && RecountedSizes(us[..i + 1], false)
         == (if ActiveHuman(s) then Occupancy.Joined(RecountedSizes(p, false), s.team) else RecountedSizes(p, false))
      && RecountedSizes(us[..i + 1], true)
         == (if ActiveHuman(s) then Occupancy.Joined(RecountedSizes(p, true), s.ally) else RecountedSizes(p, true))
  {
    var q := us[..i + 1];
    assert q[..|q| - 1] == us[..i] && q[|q| - 1] == us[i];
    var s := us[i].status;
    SizesStep(q, false);
    SizesStep(q, true);
  }

  lemma SizesStep(q: seq<User>, byAlly: bool)
    requires q != []
    ensures var p, s := q[..|q| - 1], q[|q| - 1].status;
      RecountedSizes(q, byAlly)
      == if ActiveHuman(s) then Occupancy.Joined(RecountedSizes(p, byAlly), if byAlly then s.ally else s.team)
         else RecountedSizes(p, byAlly)
  {
    var p, s := q[..|q| - 1], q[|q| - 1].status;
    var ks := ActiveSlots(q, byAlly);
    if ActiveHuman(s) {
      assert ks == ActiveSlots(p, byAlly) + [if byAlly then s.ally else s.team];
      assert ks[..|ks| - 1] == ActiveSlots(p, byAlly);
      assert Occupancy.Tally(ks) == Occupancy.Joined(Occupancy.Tally(ks[..|ks| - 1]), ks[|ks| - 1]);
    } else {
      assert ks == ActiveSlots(p, byAlly) + [];
      assert ks == ActiveSlots(p, byAlly);
    }
  }

  /** IsEveryoneReady over the first n users: each of them is a bot, a spectator, me,
      or both ready and synced. */
  ghost predicate EveryoneReady(us: seq<User>, n: nat, me: string)
    requires n <= |us|
  {
    forall i :: 0 <= i < n ==>
      IsBot(us[i].status) || us[i].status.spectator || us[i].nick == me
      || (us[i].status.ready && Synced(us[i].status))
  }

  /** Readiness of all users implies readiness of any prefix of them. */
  lemma EveryoneReadyPrefix(us: seq<User>, n: nat, me: string)
    requires n <= |us| && EveryoneReady(us, |us|, me)
    ensures EveryoneReady(us, n, me)
  {
  }

  /** Looking at a prefix misses the users after it: with a bot listed first, a second
      user who is a human player, not ready, is never looked at when only as many users
      are inspected as there are humans. */
  lemma PrefixMissesLastUsers()
    ensures var us := [User("bot", DefaultStatus.(aiShortName := "AI")), User("late", DefaultStatus)];
            EveryoneReady(us, 1, "me") && !EveryoneReady(us, 2, "me")
  {
    var us := [User("bot", DefaultStatus.(aiShortName := "AI")), User("late", DefaultStatus)];
    assert IsBot(us[0].status);
    assert !IsBot(us[1].status) && !us[1].status.spectator && us[1].nick != "me" && !us[1].status.ready;
  }
}
