/** The team and ally occupancy maps of a battle (m_teams_sizes, m_ally_sizes):
    index -> number of non-spectators on it, with an entry only while that number is positive. */
module Occupancy {

  type Sizes = map<int, int>

  /** Every stored count is positive: an index has an entry exactly while it is occupied. */
  ghost predicate Valid(m: Sizes) {
    forall k :: k in m ==> m[k] > 0
  }

  /** How many occupy k; an absent entry means nobody. */
  function Count(m: Sizes, k: int): int {
    if k in m then m[k] else 0
  }

  /** PlayerJoinedTeam / PlayerJoinedAlly: one more occupant of k. */
  function Joined(m: Sizes, k: int): (r: Sizes)
    ensures k in r && Count(r, k) == Count(m, k) + 1
    ensures forall j :: j != k ==> Count(r, j) == Count(m, j) && (j in r <==> j in m)
    ensures Valid(m) ==> Valid(r)
  {
    if k in m then m[k := m[k] + 1] else m[k := 1]
  }

  /** PlayerLeftTeam / PlayerLeftAlly: one occupant of k fewer; the entry goes when the
      count reaches zero, and leaving an index nobody occupies changes nothing. */
  function Left(m: Sizes, k: int): (r: Sizes)
    ensures k !in m ==> r == m
    ensures k in m ==> Count(r, k) == (if m[k] == 1 then 0 else m[k] - 1)
    ensures k in r <==> k in m && m[k] != 1
    ensures forall j :: j != k ==> Count(r, j) == Count(m, j) && (j in r <==> j in m)
    ensures Valid(m) ==> Valid(r)
  {
    if k !in m then m
    else if m[k] - 1 == 0 then m - {k}
    else m[k := m[k] - 1]
  }

  /** Leaving undoes joining. */
  lemma LeftUndoesJoined(m: Sizes, k: int)
    requires Valid(m)
    ensures Left(Joined(m, k), k) == m
  {
    var r := Left(Joined(m, k), k);
    assert forall j :: j in r <==> j in m;
    assert forall j :: j in r ==> r[j] == m[j];
  }

  /** Joining undoes leaving an occupied index. */
  lemma JoinedUndoesLeft(m: Sizes, k: int)
    requires Valid(m) && k in m
    ensures Joined(Left(m, k), k) == m
  {
    var r := Joined(Left(m, k), k);
    assert forall j :: j in r <==> j in m;
    assert forall j :: j in r ==> r[j] == m[j];
  }

  /** The occupancy map obtained by joining each index of ks in turn, from empty. */
  function Tally(ks: seq<int>): Sizes {
    if ks == [] then map[] else Joined(Tally(ks[..|ks| - 1]), ks[|ks| - 1])
  }

  /** A tally stores, for each index, exactly how often it occurs in ks, and keeps
      an entry only for indices that occur. */
  lemma {:induction false} TallyCounts(ks: seq<int>)
    ensures Valid(Tally(ks))
    ensures forall k :: Count(Tally(ks), k) == multiset(ks)[k]
    ensures forall k :: k in Tally(ks) <==> k in ks
  {
    if ks != [] {
      var init, last := ks[..|ks| - 1], ks[|ks| - 1];
      assert ks == init + [last];
      TallyCounts(init);
      assert multiset(ks) == multiset(init) + multiset{last};
    }
  }

  /** Moving one occupant from a to b and back again restores the map (ForceTeam /
      ForceAlly there and back). */
  lemma MoveBackRestores(m: Sizes, a: int, b: int)
    requires Valid(m) && a in m
    ensures Joined(Left(Joined(Left(m, a), b), b), a) == m
  {
    LeftUndoesJoined(Left(m, a), b);
    JoinedUndoesLeft(m, a);
  }

  /** ForceSpectator's occupancy update as written: join k when the user currently plays,
      then leave k when the user is to become a spectator. */
  function ForcedAsWritten(m: Sizes, k: int, wasSpectator: bool, spectator: bool): Sizes {
    var joined := if !wasSpectator then Joined(m, k) else m;
    if spectator then Left(joined, k) else joined
  }

  /** The update ForceSpectator means to make: a spectator that becomes a player joins k,
      a player that becomes a spectator leaves it, and nothing else changes. When m
      counted the user as it was, the result counts it as it is now. */
  function ForcedIntended(m: Sizes, k: int, wasSpectator: bool, spectator: bool): (r: Sizes)
    requires !wasSpectator ==> Count(m, k) > 0
    ensures Count(r, k) == Count(m, k) - (if wasSpectator then 0 else 1) + (if spectator then 0 else 1)
    ensures forall j :: j != k ==> Count(r, j) == Count(m, j) && (j in r <==> j in m)
    ensures Valid(m) ==> Valid(r)
  {
    if wasSpectator && !spectator then Joined(m, k)
    else if !wasSpectator && spectator then Left(m, k)
    else m
  }

  /** As written, a player forced to spectate stays counted, a player forced to play is
      counted twice, a spectator forced to play is not counted, and a spectator forced to
      spectate removes somebody else's count. */
  lemma ForcedAsWrittenMiscounts(m: Sizes, k: int)
    requires Valid(m)
    ensures ForcedAsWritten(m, k, false, true) == m
    ensures Count(ForcedAsWritten(m, k, false, false), k) == Count(m, k) + 1
    ensures ForcedAsWritten(m, k, true, false) == m
    ensures ForcedAsWritten(m, k, true, true) == Left(m, k)
    ensures k in m ==> ForcedIntended(m, k, false, true) != ForcedAsWritten(m, k, false, true)
  {
    LeftUndoesJoined(m, k);
  }
}
