/** The battle's read-only searches: the lowest free team or ally number, a free start
    position on the map, the first palette colour close to a given one, and the colour
    distance the lobby uses. */
module Allocators {
  import opened Users

  /** Whether u takes part in the free-slot search: spectators never hold a slot, and
      "me" is skipped when the caller asks to exclude itself. */
  predicate Counted(u: User, me: string, excludeMe: bool) {
    !(u.nick == me && excludeMe) && !u.status.spectator
  }

  /** The number a user holds: its ally when `byAlly`, else its team. */
  function Slot(u: User, byAlly: bool): int {
    if byAlly then u.status.ally else u.status.team
  }

  /** Some counted user holds v. */
  ghost predicate Held(users: seq<User>, me: string, excludeMe: bool, byAlly: bool, v: int) {
    exists i :: 0 <= i < |users| && Counted(users[i], me, excludeMe) && Slot(users[i], byAlly) == v
  }

  /** The counted users whose number is at least `low`; it shrinks each time the search moves on. */
  ghost function AtLeast(users: seq<User>, me: string, excludeMe: bool, byAlly: bool, low: int): set<int> {
    set i | 0 <= i < |users| && Counted(users[i], me, excludeMe) && Slot(users[i], byAlly) >= low
  }

  /** v is the least non-negative number no counted user holds. */
  ghost predicate IsLowestFree(users: seq<User>, me: string, excludeMe: bool, byAlly: bool, v: int) {
    v >= 0 && !Held(users, me, excludeMe, byAlly, v)
    && forall w :: 0 <= w < v ==> Held(users, me, excludeMe, byAlly, w)
  }

  /** GetFreeTeam / GetFreeAlly: repeat passes over the users, bumping the candidate each
      time a counted user holds it, until a pass changes nothing. The result is the least
      non-negative number no counted user holds. */
  method LowestFree(users: seq<User>, me: string, excludeMe: bool, byAlly: bool) returns (lowest: int)
    ensures lowest >= 0
    ensures !Held(users, me, excludeMe, byAlly, lowest)
    ensures forall v :: 0 <= v < lowest ==> Held(users, me, excludeMe, byAlly, v)
    ensures IsLowestFree(users, me, excludeMe, byAlly, lowest)
  {
    lowest := 0;
    var changed := true;
    while changed
      invariant lowest >= 0
      invariant forall v :: 0 <= v < lowest ==> Held(users, me, excludeMe, byAlly, v)
      invariant !changed ==> !Held(users, me, excludeMe, byAlly, lowest)
      decreases |AtLeast(users, me, excludeMe, byAlly, lowest)|, changed
    {
      lowest, changed := SearchPass(users, me, excludeMe, byAlly, lowest);
    }
  }

  /** One pass over the users, starting from the candidate `start`: the candidate moves
      up past every number it meets in order, and the pass reports whether it moved. */
  method SearchPass(users: seq<User>, me: string, excludeMe: bool, byAlly: bool, start: int)
    returns (lowest: int, changed: bool)
    requires start >= 0 && forall v :: 0 <= v < start ==> Held(users, me, excludeMe, byAlly, v)
    ensures lowest >= 0 && forall v :: 0 <= v < lowest ==> Held(users, me, excludeMe, byAlly, v)
    ensures !changed ==> lowest == start && !Held(users, me, excludeMe, byAlly, lowest)
    ensures changed ==> |AtLeast(users, me, excludeMe, byAlly, lowest)| < |AtLeast(users, me, excludeMe, byAlly, start)|
  {
    lowest := start;
    changed := false;
    var hit := 0;
    for i := 0 to |users|
      invariant lowest >= start
      invariant forall v :: 0 <= v < lowest ==> Held(users, me, excludeMe, byAlly, v)
      invariant !changed ==> lowest == start
      invariant !changed ==> forall j :: 0 <= j < i && Counted(users[j], me, excludeMe) ==>
                                Slot(users[j], byAlly) != lowest
      invariant changed ==> 0 <= hit < |users| && Counted(users[hit], me, excludeMe)
                            && start <= Slot(users[hit], byAlly) < lowest
    {
      if Counted(users[i], me, excludeMe) && Slot(users[i], byAlly) == lowest {
        lowest := lowest + 1;
        changed := true;
        hit := i;
      }
    }
    if changed {
      AtLeastShrinks(users, me, excludeMe, byAlly, start, lowest, hit);
    }
  }

  /** A counted user whose number lies in [start, lowest) leaves the set when the
      candidate moves from start to lowest. */
  lemma AtLeastShrinks(users: seq<User>, me: string, excludeMe: bool, byAlly: bool, start: int, lowest: int, hit: nat)
    requires start <= lowest && hit < |users| && Counted(users[hit], me, excludeMe)
    requires start <= Slot(users[hit], byAlly) < lowest
    ensures |AtLeast(users, me, excludeMe, byAlly, lowest)| < |AtLeast(users, me, excludeMe, byAlly, start)|
  {
    var before, after := AtLeast(users, me, excludeMe, byAlly, start), AtLeast(users, me, excludeMe, byAlly, lowest);
    assert hit in before && hit !in after;
    assert after <= before - {hit};
    var rest := before - {hit};
    assert rest == after + (rest - after) && after * (rest - after) == {};
  }

  /** LSL::Util::Clamp. */
  function Clamp(v: int, lo: int, hi: int): int {
    if v > hi then (if hi < lo then lo else hi) else if v < lo then lo else v
  }

  /** C++ integer division by two, truncating toward zero. */
  function Half(x: int): int {
    if x >= 0 then x / 2 else -((-x) / 2)
  }

  /** A non-spectator already stands on p. */
  predicate Taken(users: seq<User>, p: Position) {
    exists i :: 0 <= i < |users| && !users[i].status.spectator && users[i].status.pos == p
  }

  /** Whether a position is taken depends only on the users' spectator flags and
      positions: updating anything else of a user changes no answer. */
  lemma TakenAfterUpdate(us: seq<User>, nick: string, s: BattleStatus)
    requires nick in Nicks(us)
    requires s.spectator == StatusOf(us, nick).spectator && s.pos == StatusOf(us, nick).pos
    ensures forall p :: Taken(UpdateStatus(us, nick, s), p) == Taken(us, p)
  {
    var r := UpdateStatus(us, nick, s);
    var k := IndexOfNick(us, nick);
    forall p ensures Taken(r, p) == Taken(us, p) {
      if Taken(r, p) {
        var i :| 0 <= i < |r| && !r[i].status.spectator && r[i].status.pos == p;
        assert !us[i].status.spectator && us[i].status.pos == p;
      }
      if Taken(us, p) {
        var i :| 0 <= i < |us| && !us[i].status.spectator && us[i].status.pos == p;
        assert !r[i].status.spectator && r[i].status.pos == p;
      }
    }
  }

  /** GetFreePosition, after the map is loaded: the first start position of the map that no
      non-spectator occupies, clamped into the map; the map centre when all are taken. */
  ghost predicate IsFreePosition(positions: seq<Position>, users: seq<User>, width: int, height: int, r: Position) {
    ((exists k :: 0 <= k < |positions| && !Taken(users, positions[k])) ==>
      exists k :: 0 <= k < |positions| && !Taken(users, positions[k])
        && (forall j :: 0 <= j < k ==> Taken(users, positions[j]))
        && r == Position(Clamp(positions[k].x, 0, width), Clamp(positions[k].y, 0, height)))
    && ((forall k :: 0 <= k < |positions| ==> Taken(users, positions[k])) ==>
      r == Position(Half(width), Half(height)))
  }

  /** A position free among the users after one of them changed neither side nor
      position is free among them before. */
  lemma FreeAfterUpdate(positions: seq<Position>, us: seq<User>, nick: string, s: BattleStatus,
                        width: int, height: int, r: Position)
    requires nick in Nicks(us)
    requires s.spectator == StatusOf(us, nick).spectator && s.pos == StatusOf(us, nick).pos
    requires IsFreePosition(positions, UpdateStatus(us, nick, s), width, height, r)
    ensures IsFreePosition(positions, us, width, height, r)
  {
    TakenAfterUpdate(us, nick, s);
  }

  method FreePosition(positions: seq<Position>, users: seq<User>, width: int, height: int)
    returns (r: Position)
    ensures (exists k :: 0 <= k < |positions| && !Taken(users, positions[k])) ==>
      exists k :: 0 <= k < |positions| && !Taken(users, positions[k])
        && (forall j :: 0 <= j < k ==> Taken(users, positions[j]))
        && r == Position(Clamp(positions[k].x, 0, width), Clamp(positions[k].y, 0, height))
    ensures (forall k :: 0 <= k < |positions| ==> Taken(users, positions[k])) ==>
      r == Position(Half(width), Half(height))
    ensures IsFreePosition(positions, users, width, height, r)
  {
    for i := 0 to |positions|
      invariant forall j :: 0 <= j < i ==> Taken(users, positions[j])
    {
      var taken := false;
      for bi := 0 to |users|
        invariant !taken ==> forall b :: 0 <= b < bi ==>
          users[b].status.spectator || users[b].status.pos != positions[i]
        invariant taken ==> Taken(users, positions[i])
      {
        var status := users[bi].status;
        if !status.spectator && status.pos == positions[i] {
          taken := true;
          break;
        }
      }
      if !taken {
        return Position(Clamp(positions[i].x, 0, width), Clamp(positions[i].y, 0, height));
      }
    }
    r := Position(Half(width), Half(height));
  }

  /** A palette entry may be picked unless the exclusion list marks it. */
  predicate Eligible(excludes: seq<int>, i: nat) {
    i >= |excludes| || excludes[i] == 0
  }

  /** GetClosestFixColour: the first palette entry that is not excluded and that `similar`
      (AreColoursSimilar) accepts within `difference`; 0 when there is none. */
  method ClosestFixColour(palette: seq<Colour>, excludes: seq<int>, col: Colour, difference: int,
                          similar: (Colour, Colour, int) -> bool)
    returns (r: int)
    ensures 0 <= r && (palette == [] ==> r == 0)
    ensures (exists i :: 0 <= i < |palette| && Eligible(excludes, i) && similar(palette[i], col, difference)) ==>
      r < |palette| && Eligible(excludes, r) && similar(palette[r], col, difference)
      && forall j :: 0 <= j < r ==> !(Eligible(excludes, j) && similar(palette[j], col, difference))
    ensures (forall i :: 0 <= i < |palette| ==> !(Eligible(excludes, i) && similar(palette[i], col, difference))) ==>
      r == 0
  {
    for i := 0 to |palette|
      invariant forall j :: 0 <= j < i ==> !(Eligible(excludes, j) && similar(palette[j], col, difference))
    {
      if Eligible(excludes, i) && similar(palette[i], col, difference) {
        return i;
      }
    }
    r := 0;
  }

  function Abs(x: int): int {
    if x < 0 then -x else x
  }

  /** ColourDifference: the largest of the red, green and blue differences. */
  function ColourDifference(a: Colour, b: Colour): (d: int)
    ensures d >= Abs(a.red - b.red) && d >= Abs(a.green - b.green) && d >= Abs(a.blue - b.blue)
    ensures d == Abs(a.red - b.red) || d == Abs(a.green - b.green) || d == Abs(a.blue - b.blue)
  {
    var g := Abs(a.green - b.green);
    var bl := Abs(a.blue - b.blue);
    var r := Abs(a.red - b.red);
    var gb := if g > bl then g else bl;
    if r > gb then r else gb
  }

  /** The difference does not depend on the order of the colours. */
  lemma ColourDifferenceSymmetric(a: Colour, b: Colour)
    ensures ColourDifference(a, b) == ColourDifference(b, a)
  {
  }

  /** Two colours differ by zero exactly when they are the same colour. */
  lemma ColourDifferenceZero(a: Colour, b: Colour)
    ensures ColourDifference(a, b) == 0 <==> a == b
  {
  }
}
