/** Start rectangles keyed by ally number (m_rects), with the pending-change flags that
    reconcile local edits with the host: toadd, todelete, toresize and exist. */
module StartRects {
  import opened Text

  datatype StartRect = StartRect(
    ally: u32,
    left: u32,
    top: u32,
    right: u32,
    bottom: u32,
    toAdd: bool,
    toDelete: bool,
    toResize: bool,
    exist: bool)

  /** A default-constructed BattleStartRect: no flags set. */
  const Default := StartRect(0, 0, 0, 0, 0, false, false, false, false)

  /** BattleStartRect::IsOk: the rectangle is there and not waiting to be removed. */
  predicate IsOk(r: StartRect) {
    r.exist && !r.toDelete
  }

  type Rects = map<u32, StartRect>

  /** Every entry records the ally it is stored under (AddStartRect sets sr.ally = allyno). */
  ghost predicate Valid(rects: Rects) {
    forall k :: k in rects ==> rects[k].ally == k
  }

  /** GetStartRect: the stored rectangle, or a default one for an ally without a rectangle. */
  function Get(rects: Rects, ally: u32): (r: StartRect)
    ensures ally !in rects ==> !IsOk(r)
  {
    if ally in rects then rects[ally] else Default
  }

  /** AddStartRect: unconditionally (re)places the rectangle of `ally`, flagged as pending
      addition and existing. */
  function Add(rects: Rects, ally: u32, left: u32, top: u32, right: u32, bottom: u32): (res: Rects)
    ensures res.Keys == rects.Keys + {ally}
    ensures IsOk(res[ally]) && res[ally].toAdd && !res[ally].toResize
    ensures res[ally].ally == ally
    ensures res[ally].left == left && res[ally].top == top
    ensures res[ally].right == right && res[ally].bottom == bottom
    ensures forall k :: k in rects && k != ally ==> res[k] == rects[k]
    ensures Valid(rects) ==> Valid(res)
  {
    rects[ally := StartRect(ally, left, top, right, bottom, true, false, false, true)]
  }

  /** RemoveStartRect: only marks an existing rectangle as pending deletion. */
  function MarkRemoved(rects: Rects, ally: u32): (res: Rects)
    ensures res.Keys == rects.Keys
    ensures ally in rects ==> res[ally] == rects[ally].(toDelete := true) && !IsOk(res[ally])
    ensures forall k :: k in rects && k != ally ==> res[k] == rects[k]
    ensures ally !in rects ==> res == rects
    ensures Valid(rects) ==> Valid(res)
  {
    if ally in rects then rects[ally := rects[ally].(toDelete := true)] else rects
  }

  /** ResizeStartRect: only marks an existing rectangle as pending resize. */
  function MarkResized(rects: Rects, ally: u32): (res: Rects)
    ensures res.Keys == rects.Keys
    ensures ally in rects ==> res[ally] == rects[ally].(toResize := true)
    ensures forall k :: k in rects ==> IsOk(res[k]) == IsOk(rects[k])
    ensures forall k :: k in rects && k != ally ==> res[k] == rects[k]
    ensures ally !in rects ==> res == rects
    ensures Valid(rects) ==> Valid(res)
  {
    if ally in rects then rects[ally := rects[ally].(toResize := true)] else rects
  }

  /** StartRectRemoved: the host acknowledged a removal; the entry goes only if it is
      still pending deletion. */
  function ConfirmRemoved(rects: Rects, ally: u32): (res: Rects)
    ensures ally in res <==> ally in rects && !rects[ally].toDelete
    ensures forall k :: k != ally ==> (k in res <==> k in rects)
    ensures forall k :: k in res ==> res[k] == rects[k]
    ensures Valid(rects) ==> Valid(res)
  {
    if ally in rects && rects[ally].toDelete then rects - {ally} else rects
  }

  /** StartRectResized: the host acknowledged a resize. */
  function ConfirmResized(rects: Rects, ally: u32): (res: Rects)
    ensures res.Keys == rects.Keys
    ensures ally in rects ==> res[ally] == rects[ally].(toResize := false)
    ensures forall k :: k in rects && k != ally ==> res[k] == rects[k]
    ensures Valid(rects) ==> Valid(res)
  {
    if ally in rects then rects[ally := rects[ally].(toResize := false)] else rects
  }

  /** StartRectAdded: the host acknowledged an addition. */
  function ConfirmAdded(rects: Rects, ally: u32): (res: Rects)
    ensures res.Keys == rects.Keys
    ensures ally in rects ==> res[ally] == rects[ally].(toAdd := false)
    ensures forall k :: k in rects && k != ally ==> res[k] == rects[k]
    ensures Valid(rects) ==> Valid(res)
  {
    if ally in rects then rects[ally := rects[ally].(toAdd := false)] else rects
  }

  /** A removal stays pending: the rectangle is still stored (though no longer IsOk)
      until the host acknowledges it, and the acknowledgement then erases exactly it. */
  lemma RemovalPendingUntilConfirmed(rects: Rects, ally: u32)
    requires ally in rects
    ensures ally in MarkRemoved(rects, ally) && !IsOk(Get(MarkRemoved(rects, ally), ally))
    ensures ConfirmRemoved(MarkRemoved(rects, ally), ally) == rects - {ally}
  {
    var res := ConfirmRemoved(MarkRemoved(rects, ally), ally);
    assert forall k :: k in res <==> k in rects - {ally};
  }

  /** A rectangle added again after a removal request survives the late acknowledgement. */
  lemma ReAddSurvivesConfirmRemoved(rects: Rects, ally: u32, l: u32, t: u32, r: u32, b: u32)
    ensures ConfirmRemoved(Add(MarkRemoved(rects, ally), ally, l, t, r, b), ally)
         == Add(MarkRemoved(rects, ally), ally, l, t, r, b)
  {
  }

  /** Resizing then acknowledging the resize restores the rectangle. */
  lemma ResizeThenConfirmRestores(rects: Rects, ally: u32)
    requires ally in rects && !rects[ally].toResize
    ensures ConfirmResized(MarkResized(rects, ally), ally) == rects
  {
    var res := ConfirmResized(MarkResized(rects, ally), ally);
    assert res[ally] == rects[ally];
    assert forall k :: k in res ==> res[k] == rects[k];
  }

  /** The largest element of a non-empty set of unsigned ints. */
  function MaxKey(s: set<u32>): (m: u32)
    requires s != {}
    ensures m in s && forall k :: k in s ==> k <= m
  {
    MaxExists(s);
    var m :| m in s && forall k :: k in s ==> k <= m;
    m
  }

  lemma {:induction false} MaxExists(s: set<u32>)
    requires s != {}
    ensures exists m :: m in s && forall k :: k in s ==> k <= m
    decreases |s|
  {
    var x :| x in s;
    if s - {x} == {} {
      assert s == {x};
    } else {
      MaxExists(s - {x});
      var m :| m in s - {x} && forall k :: k in s - {x} ==> k <= m;
      var best := if m < x then x else m;
      forall k | k in s ensures k <= best {
        if k != x {
          assert k in s - {x};
        }
      }
      assert best in s;
    }
  }

  /** GetLastRectIdx: the largest ally that has a rectangle, or 0 when there is none. */
  function LastIdx(rects: Rects): (r: u32)
    ensures rects == map[] ==> r == 0
    ensures rects != map[] ==> r in rects && forall k :: k in rects ==> k <= r
  {
    if rects == map[] then 0
    else
      assert rects.Keys != {} by {
        var k :| k in rects;
      }
      MaxKey(rects.Keys)
  }

  /** With a rectangle at the largest unsigned ally, GetLastRectIdx() is that ally, so
      the guard `j <= GetLastRectIdx()` of an `unsigned int` loop over the rectangles
      holds for every value j takes, and `++j` wraps from 0xFFFFFFFF back to 0: such a
      loop never ends. */
  lemma LastAllyLoopNeverEnds(rects: Rects)
    requires 0xFFFF_FFFF in rects
    ensures LastIdx(rects) == 0xFFFF_FFFF
    ensures forall n: int :: U32(n) <= LastIdx(rects)
    ensures U32(LastIdx(rects) as int + 1) == 0
  {
  }

  /** The unsigned ints below n, and there are n of them. */
  function Below(n: nat): (s: set<u32>)
    requires n <= 0x1_0000_0000
    ensures forall k: u32 :: k in s <==> k < n
    ensures |s| == n
  {
    if n == 0 then {} else Below(n - 1) + {n - 1}
  }

  /** When every ally from 0 up to the last one has a rectangle, the allies are exactly
      0..last, so the next index, the number of rectangles, is free. */
  lemma DenseRectsCount(rects: Rects)
    requires rects != map[]
    requires forall i: u32 :: i <= LastIdx(rects) ==> i in rects
    ensures |rects| == LastIdx(rects) + 1
    ensures |rects| !in rects
  {
    var n: nat := LastIdx(rects) as int + 1;
    assert rects.Keys == Below(n);
    assert |rects| == |rects.Keys|;
  }

  /** GetNextFreeRectIdx: the lowest ally from 0 to the last one whose rectangle is not
      IsOk; when there is none, the number of rectangles. */
  method NextFreeIdx(rects: Rects) returns (r: u32)
    requires |rects| < 0x1_0000_0000
    ensures !IsOk(Get(rects, r))
    ensures forall i: u32 :: i < r ==> IsOk(Get(rects, i))
  {
    var last := LastIdx(rects);
    var i: int := 0;
    while i <= last
      invariant 0 <= i <= last as int + 1
      invariant forall j: u32 :: j < i ==> IsOk(Get(rects, j))
    {
      if !IsOk(Get(rects, i as u32)) {
        return i;
      }
      i := i + 1;
    }
    forall j: u32 | j <= last ensures j in rects {
      assert IsOk(Get(rects, j));
    }
    if rects != map[] {
      DenseRectsCount(rects);
    }
    r := |rects|;
  }
}
