/** Hosting presets: looking a preset name up case-insensitively, and the private
    category of a preset, which stores the start rectangles under `rect_<n>_<field>` keys
    and the unit restrictions as a tab-terminated list of `name=count` tokens. */
module Presets {
  import opened Text
  import opened StartRects

  // ---------------------------------------------------------------- preset names

  /** wxArrayString::Index(name, false): the first entry equal to name up to case, or -1.
      `lower` is the character lowering the comparison uses. */
  function PresetIndex(list: seq<string>, name: string, lower: char -> char): (k: int)
    ensures -1 <= k < |list|
    ensures k >= 0 ==> EqualNoCase(list[k], name, lower)
    ensures forall j :: 0 <= j < |list| && (k < 0 || j < k) ==> !EqualNoCase(list[j], name, lower)
  {
    if list == [] then -1
    else if EqualNoCase(list[0], name, lower) then 0
    else
      var k := PresetIndex(list[1..], name, lower);
      if k < 0 then -1 else k + 1
  }

  /** FixPresetName: the stored spelling of the preset, or "" when no stored preset
      matches up to case. */
  function FixPresetName(list: seq<string>, name: string, lower: char -> char): (r: string)
    ensures r != "" ==> r in list && EqualNoCase(r, name, lower)
    ensures (forall j :: 0 <= j < |list| ==> !EqualNoCase(list[j], name, lower)) ==> r == ""
    ensures forall j :: 0 <= j < |list| && list[j] == name ==> EqualNoCase(r, name, lower)
  {
    var k := PresetIndex(list, name, lower);
    if k < 0 then "" else list[k]
  }

  /** The name SaveOptionsPreset stores under: the stored spelling of a preset that
      matches up to case, else the name as given (a new preset). */
  function SaveName(list: seq<string>, name: string, lower: char -> char): (r: string)
    ensures r == name || (r in list && EqualNoCase(r, name, lower))
  {
    var f := FixPresetName(list, name, lower);
    if f == "" then name else f
  }

  /** The lookup folds whatever letters `lower` folds, not only ASCII ones: "ärger" finds
      a preset stored as "Ärger" once 'Ä' and 'ä' lower alike. */
  lemma NonAsciiFound(lower: char -> char)
    requires lower('Ä') == lower('ä')
    ensures FixPresetName(["Ärger"], "ärger", lower) == "Ärger"
  {
    assert EqualNoCase("Ärger", "ärger", lower) by {
      forall i | 0 <= i < 5 ensures lower("Ärger"[i]) == lower("ärger"[i]) {
        if i > 0 {
          assert "Ärger"[i] == "ärger"[i];
        }
      }
    }
  }

  /** Listing a preset that no stored name matches makes it the one found for its name. */
  lemma {:induction false} PresetIndexAppend(list: seq<string>, name: string, lower: char -> char)
    requires forall j :: 0 <= j < |list| ==> !EqualNoCase(list[j], name, lower)
    ensures PresetIndex(list + [name], name, lower) == |list|
  {
    if list == [] {
      assert EqualNoCase(name, name, lower);
    } else {
      assert (list + [name])[1..] == list[1..] + [name];
      PresetIndexAppend(list[1..], name, lower);
    }
  }

  /** A preset saved under a non-empty name is found again by that name: FixPresetName
      gives back the name SaveOptionsPreset stored under, once that name is listed. */
  lemma SavedNameFound(list: seq<string>, name: string, lower: char -> char)
    requires name != ""
    ensures var p := SaveName(list, name, lower);
      FixPresetName(if p in list then list else list + [p], name, lower) == p && p != ""
  {
    var f := FixPresetName(list, name, lower);
    if f == "" {
      assert EqualNoCase(name, name, lower);
      PresetIndexAppend(list, name, lower);
    }
  }

  // ---------------------------------------------------------------- option categories

  /** setSingleOption for every stored entry of a category: an option the category
      defines takes the stored value, entries for options it does not define are ignored. */
  function Applied(cat: map<string, string>, o: map<string, string>): (r: map<string, string>)
    ensures r.Keys == cat.Keys
  {
    map k | k in cat :: if k in o then o[k] else cat[k]
  }

  /** Loading a category's own options back into it changes nothing. */
  lemma AppliedSelf(cat: map<string, string>)
    ensures Applied(cat, cat) == cat
  {
  }

  /** Setting the least stored entry first and the rest afterwards is setting them all. */
  lemma AppliedStep(cat: map<string, string>, rest: map<string, string>, k: string)
    requires k in rest
    ensures Applied(if k in cat then cat[k := rest[k]] else cat, rest - {k}) == Applied(cat, rest)
  {
    var l := Applied(if k in cat then cat[k := rest[k]] else cat, rest - {k});
    var r := Applied(cat, rest);
    assert l.Keys == r.Keys;
    forall j | j in l ensures l[j] == r[j] {
    }
  }

  // ---------------------------------------------------------------- restrictions

  ghost predicate NoTabNames(m: map<string, i32>) {
    forall n :: n in m ==> '\t' !in n
  }

  /** One saved restriction: `name=count`. */
  function RestrictionToken(name: string, count: i32): string {
    name + "=" + IntToString(count)
  }

  /** The tokens in std::map order (least name first). */
  function RestrictionTokens(m: map<string, i32>): (ts: seq<string>)
    ensures |ts| == |m|
    ensures forall i :: 0 <= i < |ts| ==> |ts[i]| > 0
    ensures NoTabNames(m) ==> forall i :: 0 <= i < |ts| ==> '\t' !in ts[i]
    decreases |m|
  {
    if |m| == 0 then []
    else
      var k := LeastKey(m.Keys);
      var rest := RestrictionTokens(m - {k});
      assert |m - {k}| == |m| - 1;
      [RestrictionToken(k, m[k])] + rest
  }

  /** The `restrictions` value SaveOptionsPreset writes. */
  function EncodeRestrictions(m: map<string, i32>): string {
    JoinTerminated(RestrictionTokens(m), '\t')
  }

  /** The unit a token restricts: the text before its last '=' (wxString::BeforeLast). */
  function TokenName(t: string): string {
    WxBeforeLast(t, '=')
  }

  /** The count of a token: the text after its last '=', read with s2l and passed as an `int`. */
  function TokenCount(t: string): i32 {
    I32(ParseLong(AfterLast(t, '=')))
  }

  /** Restricting each token's unit in turn, starting from acc. */
  function ApplyRestrictions(acc: map<string, i32>, ts: seq<string>): map<string, i32>
    decreases |ts|
  {
    if ts == [] then acc
    else ApplyRestrictions(acc[TokenName(ts[0]) := TokenCount(ts[0])], ts[1..])
  }

  /** The restrictions LoadOptionsPreset rebuilds from a stored `restrictions` value. */
  function DecodeRestrictions(s: string): map<string, i32> {
    ApplyRestrictions(map[], Tokens(s, '\t'))
  }

  /** The stored list starts with the least unit's token, tab-terminated. */
  lemma EncodeFirst(m: map<string, i32>)
    requires m != map[]
    ensures m.Keys != {}
    ensures var k := LeastKey(m.Keys);
      EncodeRestrictions(m) == RestrictionToken(k, m[k]) + "\t" + EncodeRestrictions(m - {k})
  {
    var k :| k in m;
    assert k in m.Keys;
    assert |m| != 0;
  }

  /** One step of writing the list out: what has been written, followed by the rest of
      the list, is what has been written with the least unit's token, followed by the
      list of the other units. */
  lemma EncodeStep(done: string, m: map<string, i32>)
    requires m != map[]
    ensures m.Keys != {}
    ensures var k := LeastKey(m.Keys);
      k in m && |m - {k}| < |m|
      && done + EncodeRestrictions(m) == (done + RestrictionToken(k, m[k]) + "\t") + EncodeRestrictions(m - {k})
  {
    EncodeFirst(m);
    var k := LeastKey(m.Keys);
    var rest := m - {k};
    assert rest.Keys + {k} == m.Keys && k !in rest.Keys;
    var a, b := RestrictionToken(k, m[k]), EncodeRestrictions(rest);
    assert done + (a + "\t" + b) == (done + a + "\t") + b;
  }

  lemma TokenRoundTrip(name: string, count: i32)
    ensures TokenName(RestrictionToken(name, count)) == name
    ensures TokenCount(RestrictionToken(name, count)) == count
  {
    SplitAtLast(name, '=', IntToString(count));
    ParseLongOfIntToString(count);
  }

  lemma {:induction false} ApplyTokensOf(acc: map<string, i32>, m: map<string, i32>)
    ensures ApplyRestrictions(acc, RestrictionTokens(m)) == acc + m
    decreases |m|
  {
    if |m| != 0 {
      var k := LeastKey(m.Keys);
      var ts := RestrictionTokens(m);
      var t := RestrictionToken(k, m[k]);
      assert ts == [t] + RestrictionTokens(m - {k});
      assert ts[0] == t && ts[1..] == RestrictionTokens(m - {k});
      TokenRoundTrip(k, m[k]);
      var acc' := acc[k := m[k]];
      assert ApplyRestrictions(acc, ts) == ApplyRestrictions(acc', ts[1..]);
      ApplyTokensOf(acc', m - {k});
      MapUpdateUnion(acc, m, k);
    }
  }

  lemma MapUpdateUnion<V>(acc: map<string, V>, m: map<string, V>, k: string)
    requires k in m
    ensures acc[k := m[k]] + (m - {k}) == acc + m
  {
    var l, r := acc[k := m[k]] + (m - {k}), acc + m;
    assert l.Keys == r.Keys;
    forall j | j in l ensures l[j] == r[j] {
    }
  }

  /** Loading the saved restrictions gives back exactly the saved restrictions, provided
      no unit name holds a tab. */
  lemma RestrictionsRoundTrip(m: map<string, i32>)
    requires NoTabNames(m)
    ensures DecodeRestrictions(EncodeRestrictions(m)) == m
  {
    var ts := RestrictionTokens(m);
    TokensOfJoin(ts, '\t');
    assert Tokens(EncodeRestrictions(m), '\t') == ts;
    ApplyTokensOf(map[], m);
    assert map[] + m == m;
  }

  // ---------------------------------------------------------------- start rectangles

  /** The key of one field of the n-th saved rectangle. */
  function RectKey(n: nat, field: string): string {
    "rect_" + IntToString(n) + "_" + field
  }

  /** The saved value of a rectangle field. */
  function RectValue(r: StartRect, field: string): string {
    if field == "ally" then IntToString(U32(r.ally + 1))
    else if field == "left" then IntToString(r.left)
    else if field == "top" then IntToString(r.top)
    else if field == "right" then IntToString(r.right)
    else IntToString(r.bottom)
  }

  predicate IsRectField(f: string) {
    f == "ally" || f == "left" || f == "top" || f == "right" || f == "bottom"
  }

  /** Two texts without '_' that are followed by '_' can be told apart at the first '_'. */
  lemma {:induction false} SplitAtUnderscore(a: string, s1: string, b: string, s2: string)
    requires '_' !in a && '_' !in b
    requires a + "_" + s1 == b + "_" + s2
    ensures a == b && s1 == s2
  {
    var x := a + "_" + s1;
    SpanNotOfToken(a, '_', s1);
    SpanNotOfToken(b, '_', s2);
    assert |a| == |b|;
    assert a == x[..|a|] == b;
    assert s1 == x[|a| + 1..] == s2;
  }

  /** Different rectangle numbers or fields give different keys. */
  lemma RectKeyInjective(n1: nat, f1: string, n2: nat, f2: string)
    ensures RectKey(n1, f1) == RectKey(n2, f2) ==> n1 == n2 && f1 == f2
  {
    if RectKey(n1, f1) == RectKey(n2, f2) {
      var a, b := IntToString(n1), IntToString(n2);
      assert RectKey(n1, f1)[5..] == a + "_" + f1;
      assert RectKey(n2, f2)[5..] == b + "_" + f2;
      SplitAtUnderscore(a, f1, b, f2);
      IntToStringInjective(n1, n2);
    }
  }

  /** A rectangle key is none of the preset's other keys. */
  lemma RectKeyIsNotOther(n: nat, f: string)
    ensures RectKey(n, f) != "mapname" && RectKey(n, f) != "numrects" && RectKey(n, f) != "restrictions"
  {
    var k := RectKey(n, f);
    assert k[0] == 'r' && k[2] == 'c';
    assert "mapname"[0] == 'm' && "numrects"[0] == 'n' && "restrictions"[2] == 's';
  }

  lemma RectKeysDistinct(n: nat)
    ensures forall f1, f2 :: IsRectField(f1) && IsRectField(f2) && f1 != f2 ==> RectKey(n, f1) != RectKey(n, f2)
  {
    forall f1, f2 | IsRectField(f1) && IsRectField(f2) && f1 != f2
      ensures RectKey(n, f1) != RectKey(n, f2)
    {
      RectKeyInjective(n, f1, n, f2);
    }
  }

  /** The five entries written for rectangle r saved as the n-th one. */
  function RectEntries(r: StartRect, n: nat): map<string, string> {
    map[RectKey(n, "ally") := RectValue(r, "ally"), RectKey(n, "left") := RectValue(r, "left"),
        RectKey(n, "top") := RectValue(r, "top"), RectKey(n, "bottom") := RectValue(r, "bottom"),
        RectKey(n, "right") := RectValue(r, "right")]
  }

  /** Each field of r is stored under its own key. */
  lemma RectEntriesLookup(r: StartRect, n: nat, f: string)
    requires IsRectField(f)
    ensures RectKey(n, f) in RectEntries(r, n) && RectEntries(r, n)[RectKey(n, f)] == RectValue(r, f)
  {
    RectKeysDistinct(n);
    FiveEntries(RectKey(n, "ally"), RectKey(n, "left"), RectKey(n, "top"), RectKey(n, "bottom"),
                RectKey(n, "right"), RectValue(r, "ally"), RectValue(r, "left"), RectValue(r, "top"),
                RectValue(r, "bottom"), RectValue(r, "right"));
  }

  lemma FiveEntries(k1: string, k2: string, k3: string, k4: string, k5: string,
                    v1: string, v2: string, v3: string, v4: string, v5: string)
    requires k1 != k2 && k1 != k3 && k1 != k4 && k1 != k5 && k2 != k3
    requires k2 != k4 && k2 != k5 && k3 != k4 && k3 != k5 && k4 != k5
    ensures var m := map[k1 := v1, k2 := v2, k3 := v3, k4 := v4, k5 := v5];
      m[k1] == v1 && m[k2] == v2 && m[k3] == v3 && m[k4] == v4 && m[k5] == v5
  {
  }

  /** The entries are keyed by the n-th rectangle's keys only. */
  lemma RectEntriesKeys(r: StartRect, n: nat, key: string)
    requires key in RectEntries(r, n)
    ensures exists f :: IsRectField(f) && key == RectKey(n, f)
  {
    assert IsRectField("ally") && IsRectField("left") && IsRectField("top");
    assert IsRectField("bottom") && IsRectField("right");
  }

  /** The allies below n whose rectangle IsOk, in increasing order: the rectangles
      SaveOptionsPreset visits and numbers. */
  function OkAllies(rects: Rects, n: nat): (al: seq<u32>)
    requires n <= 0x1_0000_0000
    ensures forall i, j :: 0 <= i < j < |al| ==> al[i] < al[j]
    ensures |al| <= n
    ensures forall i :: 0 <= i < |al| ==> al[i] < n && IsOk(Get(rects, al[i]))
    ensures forall a: u32 :: a < n && IsOk(Get(rects, a)) ==> a in al
  {
    if n == 0 then []
    else OkAllies(rects, n - 1) + (if IsOk(Get(rects, n - 1)) then [n - 1] else [])
  }

  /** The entries for the given allies' rectangles, numbered from 0. */
  function SavedRects(rects: Rects, allies: seq<u32>): map<string, string> {
    if allies == [] then map[]
    else SavedRects(rects, allies[..|allies| - 1]) + RectEntries(Get(rects, allies[|allies| - 1]), |allies| - 1)
  }

  /** The allies whose rectangles SaveOptionsPreset writes: every ally up to the last
      one whose rectangle IsOk. */
  function SavedAllies(rects: Rects): seq<u32> {
    OkAllies(rects, LastIdx(rects) as int + 1)
  }

  /** The private category SaveOptionsPreset writes: the host map name, the rectangles
      when start positions are chosen in game (ST_Choose), their number, and the
      restrictions. */
  function PrivatePreset(mapName: string, rects: Rects, restricted: map<string, i32>, choose: bool)
    : map<string, string>
  {
    var saved := if choose then SavedRects(rects, SavedAllies(rects)) else map[];
    var count := if choose then |SavedAllies(rects)| else 0;
    (map["mapname" := mapName] + saved)["numrects" := IntToString(count)]
      ["restrictions" := EncodeRestrictions(restricted)]
  }

  /** `options[key]` on a copy of a preset category: the value, or "" when absent. */
  function Lookup(o: map<string, string>, key: string): string {
    if key in o then o[key] else ""
  }

  /** One iteration of LoadOptionsPreset's rectangle loop: a stored ally of 0 is skipped,
      any other is re-added one lower, with the stored coordinates. */
  function LoadRectStep(rects: Rects, o: map<string, string>, n: nat): Rects {
    var ally := I32(ParseLong(Lookup(o, RectKey(n, "ally"))));
    if ally == 0 then rects
    else
      Add(rects, U32(ally - 1), U32(ParseLong(Lookup(o, RectKey(n, "left")))),
          U32(ParseLong(Lookup(o, RectKey(n, "top")))), U32(ParseLong(Lookup(o, RectKey(n, "right")))),
          U32(ParseLong(Lookup(o, RectKey(n, "bottom")))))
  }

  /** The rectangles after loading the first `count` stored ones. */
  function LoadRects(rects: Rects, o: map<string, string>, count: nat): Rects {
    if count == 0 then rects else LoadRectStep(LoadRects(rects, o, count - 1), o, count - 1)
  }

  /** One more ally looked at by SaveOptionsPreset's rectangle loop: an ally whose
      rectangle IsOk adds its five entries, numbered by the count saved so far; any other
      adds nothing. */
  lemma SaveRectStep(o0: map<string, string>, rects: Rects, b: nat)
    requires b < 0x1_0000_0000
    ensures IsOk(Get(rects, b as u32)) ==>
      var al := OkAllies(rects, b);
      |OkAllies(rects, b + 1)| == |al| + 1
      && o0 + SavedRects(rects, OkAllies(rects, b + 1)) == (o0 + SavedRects(rects, al)) + RectEntries(Get(rects, b as u32), |al|)
    ensures !IsOk(Get(rects, b as u32)) ==> OkAllies(rects, b + 1) == OkAllies(rects, b)
  {
    var al := OkAllies(rects, b);
    if IsOk(Get(rects, b as u32)) {
      assert OkAllies(rects, b + 1) == al + [b as u32];
      SavedRectsSnoc(rects, al, b as u32);
      UnionAssoc(o0, SavedRects(rects, al), RectEntries(Get(rects, b as u32), |al|));
    }
  }

  lemma UnionAssoc<V>(a: map<string, V>, b: map<string, V>, c: map<string, V>)
    ensures a + (b + c) == (a + b) + c
  {
  }

  lemma SavedRectsSnoc(rects: Rects, al: seq<u32>, a: u32)
    ensures SavedRects(rects, al + [a]) == SavedRects(rects, al) + RectEntries(Get(rects, a), |al|)
  {
    var al' := al + [a];
    assert al'[..|al'| - 1] == al;
  }

  /** Writing a rectangle's five keys one by one, as SaveOptionsPreset does, adds its entries. */
  lemma WriteRectEntries(o: map<string, string>, r: StartRect, n: nat)
    ensures o[RectKey(n, "ally") := RectValue(r, "ally")][RectKey(n, "left") := RectValue(r, "left")]
             [RectKey(n, "top") := RectValue(r, "top")][RectKey(n, "bottom") := RectValue(r, "bottom")]
             [RectKey(n, "right") := RectValue(r, "right")]
            == o + RectEntries(r, n)
  {
  }

  /** A rectangle as loading a preset re-creates it: same place, pending addition. */
  function Restored(r: StartRect): StartRect {
    StartRect(r.ally, r.left, r.top, r.right, r.bottom, true, false, false, true)
  }

  /** The k-th saved rectangle's fields are found under its keys. */
  lemma {:induction false} SavedRectsAt(rects: Rects, allies: seq<u32>, k: nat, f: string)
    requires k < |allies| && IsRectField(f)
    ensures RectKey(k, f) in SavedRects(rects, allies)
    ensures SavedRects(rects, allies)[RectKey(k, f)] == RectValue(Get(rects, allies[k]), f)
  {
    var m := |allies| - 1;
    var last := RectEntries(Get(rects, allies[m]), m);
    assert SavedRects(rects, allies) == SavedRects(rects, allies[..m]) + last;
    if k == m {
      RectEntriesLookup(Get(rects, allies[m]), m, f);
    } else {
      SavedRectsAt(rects, allies[..m], k, f);
      assert allies[..m][k] == allies[k];
      OtherRectKey(Get(rects, allies[m]), m, k, f);
    }
  }

  /** The entries of the m-th rectangle hold no key of another rectangle. */
  lemma OtherRectKey(r: StartRect, m: nat, k: nat, f: string)
    requires k != m
    ensures RectKey(k, f) !in RectEntries(r, m)
  {
    forall key | key in RectEntries(r, m) ensures key != RectKey(k, f) {
      RectEntriesKeys(r, m, key);
      var g :| IsRectField(g) && key == RectKey(m, g);
      RectKeyInjective(m, g, k, f);
    }
  }

  /** A saved ally number reads back as the ally, except that the largest unsigned ally
      is saved as 0 and therefore skipped. */
  lemma AllyRoundTrip(a: u32)
    ensures a < 0xFFFF_FFFF ==>
      I32(ParseLong(IntToString(U32(a + 1)))) != 0 && U32(I32(ParseLong(IntToString(U32(a + 1)))) - 1) == a
    ensures a == 0xFFFF_FFFF ==> I32(ParseLong(IntToString(U32(a + 1)))) == 0
  {
    var v: int := U32(a + 1);
    ParseLongOfIntToString(v);
    if a < 0xFFFF_FFFF {
      assert v == a + 1;
      if v >= 0x8000_0000 {
        assert I32(v) == v - 0x1_0000_0000;
        U32OfNegative(v - 0x1_0000_0000 - 1);
      }
    } else {
      assert v == 0;
    }
  }

  lemma U32OfNegative(x: int)
    requires -0x1_0000_0000 <= x < 0
    ensures U32(x) == x + 0x1_0000_0000
  {
    var r := x + 0x1_0000_0000;
    assert x == -1 * 0x1_0000_0000 + r;
  }

  lemma CoordRoundTrip(c: u32)
    ensures U32(ParseLong(IntToString(c))) == c
  {
    ParseLongOfIntToString(c);
  }

  /** One loading step over the entries of a saved rectangle r re-adds r. */
  lemma LoadStepOfSaved(before: Rects, o: map<string, string>, k: nat, r: StartRect)
    requires Lookup(o, RectKey(k, "ally")) == RectValue(r, "ally")
    requires Lookup(o, RectKey(k, "left")) == RectValue(r, "left")
    requires Lookup(o, RectKey(k, "top")) == RectValue(r, "top")
    requires Lookup(o, RectKey(k, "right")) == RectValue(r, "right")
    requires Lookup(o, RectKey(k, "bottom")) == RectValue(r, "bottom")
    ensures r.ally < 0xFFFF_FFFF ==>
      LoadRectStep(before, o, k) == Add(before, r.ally, r.left, r.top, r.right, r.bottom)
    ensures r.ally == 0xFFFF_FFFF ==> LoadRectStep(before, o, k) == before
  {
    StoredAllyReadBack(o, RectKey(k, "ally"), r.ally);
    StoredCoordReadBack(o, RectKey(k, "left"), r.left);
    StoredCoordReadBack(o, RectKey(k, "top"), r.top);
    StoredCoordReadBack(o, RectKey(k, "right"), r.right);
    StoredCoordReadBack(o, RectKey(k, "bottom"), r.bottom);
  }

  lemma StoredAllyReadBack(o: map<string, string>, key: string, a: u32)
    requires Lookup(o, key) == IntToString(U32(a + 1))
    ensures a < 0xFFFF_FFFF ==>
      I32(ParseLong(Lookup(o, key))) != 0 && U32(I32(ParseLong(Lookup(o, key))) - 1) == a
    ensures a == 0xFFFF_FFFF ==> I32(ParseLong(Lookup(o, key))) == 0
  {
    AllyRoundTrip(a);
  }

  lemma StoredCoordReadBack(o: map<string, string>, key: string, c: u32)
    requires Lookup(o, key) == IntToString(c)
    ensures U32(ParseLong(Lookup(o, key))) == c
  {
    CoordRoundTrip(c);
  }

  /** Loading the first n of the saved rectangles restores each of them (apart from one
      saved for the largest unsigned ally, which is skipped). */
  lemma {:induction false} LoadSavedRects(rects: Rects, allies: seq<u32>, o: map<string, string>,
                                         r0: Rects, n: nat)
    requires Valid(rects)
    requires forall i, j :: 0 <= i < j < |allies| ==> allies[i] < allies[j]
    requires forall i :: 0 <= i < |allies| ==> IsOk(Get(rects, allies[i]))
    requires forall key :: key in SavedRects(rects, allies) ==>
      key in o && o[key] == SavedRects(rects, allies)[key]
    requires n <= |allies|
    ensures forall i :: 0 <= i < n && allies[i] < 0xFFFF_FFFF ==>
      Get(LoadRects(r0, o, n), allies[i]) == Restored(Get(rects, allies[i]))
  {
    if n > 0 {
      LoadSavedRects(rects, allies, o, r0, n - 1);
      var before := LoadRects(r0, o, n - 1);
      var after := LoadRects(r0, o, n);
      assert after == LoadRectStep(before, o, n - 1);
      LoadSavedAt(rects, allies, o, before, n - 1);
      RestoreStep(rects, allies, before, after, n - 1);
    }
  }

  /** Re-adding the k-th of the saved rectangles, in increasing ally order, keeps those
      re-added before it and restores it. */
  lemma RestoreStep(rects: Rects, allies: seq<u32>, before: Rects, after: Rects, k: nat)
    requires k < |allies|
    requires forall i, j :: 0 <= i < j < |allies| ==> allies[i] < allies[j]
    requires Valid(rects) && IsOk(Get(rects, allies[k]))
    requires var r := Get(rects, allies[k]);
      r.ally < 0xFFFF_FFFF ==> after == Add(before, r.ally, r.left, r.top, r.right, r.bottom)
    requires allies[k] == 0xFFFF_FFFF ==> after == before
    requires forall i :: 0 <= i < k && allies[i] < 0xFFFF_FFFF ==>
      Get(before, allies[i]) == Restored(Get(rects, allies[i]))
    ensures forall i :: 0 <= i <= k && allies[i] < 0xFFFF_FFFF ==>
      Get(after, allies[i]) == Restored(Get(rects, allies[i]))
  {
    var a := allies[k];
    assert Get(rects, a).ally == a;
    forall i | 0 <= i <= k && allies[i] < 0xFFFF_FFFF
      ensures Get(after, allies[i]) == Restored(Get(rects, allies[i]))
    {
      if i < k {
        assert allies[i] < a;
        assert Get(after, allies[i]) == Get(before, allies[i]);
      }
    }
  }

  /** Loading the k-th saved rectangle's entries re-adds it. */
  lemma LoadSavedAt(rects: Rects, allies: seq<u32>, o: map<string, string>, before: Rects, k: nat)
    requires k < |allies|
    requires forall key :: key in SavedRects(rects, allies) ==>
      key in o && o[key] == SavedRects(rects, allies)[key]
    ensures var r := Get(rects, allies[k]);
      r.ally < 0xFFFF_FFFF ==> LoadRectStep(before, o, k) == Add(before, r.ally, r.left, r.top, r.right, r.bottom)
    ensures Get(rects, allies[k]).ally == 0xFFFF_FFFF ==> LoadRectStep(before, o, k) == before
  {
    SavedRectsAt(rects, allies, k, "ally");
    SavedRectsAt(rects, allies, k, "left");
    SavedRectsAt(rects, allies, k, "top");
    SavedRectsAt(rects, allies, k, "right");
    SavedRectsAt(rects, allies, k, "bottom");
    LoadStepOfSaved(before, o, k, Get(rects, allies[k]));
  }

  /** Every saved key is one of the saved rectangles' keys. */
  lemma {:induction false} SavedRectsKeys(rects: Rects, allies: seq<u32>, key: string)
    requires key in SavedRects(rects, allies)
    ensures exists k: nat, f :: k < |allies| && IsRectField(f) && key == RectKey(k, f)
  {
    var m := |allies| - 1;
    if key in RectEntries(Get(rects, allies[m]), m) {
      RectEntriesKeys(Get(rects, allies[m]), m, key);
    } else {
      SavedRectsKeys(rects, allies[..m], key);
    }
  }

  /** Every saved rectangle entry is in the private category as saved, under a key other
      than "mapname". */
  lemma SavedEntryInPreset(mapName: string, rects: Rects, restricted: map<string, i32>, key: string)
    requires key in SavedRects(rects, SavedAllies(rects))
    ensures var p := PrivatePreset(mapName, rects, restricted, true);
      key != "mapname" && key in p && p[key] == SavedRects(rects, SavedAllies(rects))[key]
  {
    SavedRectsKeys(rects, SavedAllies(rects), key);
    var k: nat, f :| k < |SavedAllies(rects)| && IsRectField(f) && key == RectKey(k, f);
    RectKeyIsNotOther(k, f);
  }

  /** A private category that agrees with a saved one away from "mapname" holds every
      saved rectangle entry and the saved count. */
  lemma SavedEntriesKept(mapName: string, rects: Rects, restricted: map<string, i32>,
                         o: map<string, string>)
    requires forall key :: key in PrivatePreset(mapName, rects, restricted, true) && key != "mapname" ==>
      key in o && o[key] == PrivatePreset(mapName, rects, restricted, true)[key]
    ensures forall key :: key in SavedRects(rects, SavedAllies(rects)) ==>
      key in o && o[key] == SavedRects(rects, SavedAllies(rects))[key]
    ensures Lookup(o, "numrects") == IntToString(|SavedAllies(rects)|)
  {
    var allies := SavedAllies(rects);
    var saved := SavedRects(rects, allies);
    var p := PrivatePreset(mapName, rects, restricted, true);
    forall key | key in saved ensures key in o && o[key] == saved[key] {
      SavedEntryInPreset(mapName, rects, restricted, key);
    }
    assert p["numrects"] == IntToString(|allies|);
  }

  /** The rectangle part of a preset round trip: after saving with ST_Choose and loading
      the same private category (whatever became of its map name), every rectangle that
      was in use is back in place, with its coordinates, pending addition. */
  lemma RectsRoundTrip(mapName: string, rects: Rects, restricted: map<string, i32>,
                       o: map<string, string>, r0: Rects)
    requires Valid(rects) && 0xFFFF_FFFF !in rects
    requires forall key :: key in PrivatePreset(mapName, rects, restricted, true) && key != "mapname" ==>
      key in o && o[key] == PrivatePreset(mapName, rects, restricted, true)[key]
    ensures forall a: u32 :: IsOk(Get(rects, a)) ==>
      Get(LoadRects(r0, o, U32(ParseLong(Lookup(o, "numrects")))), a) == Restored(Get(rects, a))
  {
    var allies := SavedAllies(rects);
    SavedEntriesKept(mapName, rects, restricted, o);
    SavedCountReadBack(rects, o);
    LoadSavedRects(rects, allies, o, r0, |allies|);
    forall a: u32 | IsOk(Get(rects, a))
      ensures Get(LoadRects(r0, o, |allies|), a) == Restored(Get(rects, a))
    {
      OkIsSaved(rects, a);
    }
  }

  /** The stored rectangle count reads back as the number of saved rectangles. */
  lemma SavedCountReadBack(rects: Rects, o: map<string, string>)
    requires Valid(rects) && 0xFFFF_FFFF !in rects
    requires Lookup(o, "numrects") == IntToString(|SavedAllies(rects)|)
    ensures U32(ParseLong(Lookup(o, "numrects"))) == |SavedAllies(rects)|
  {
    var allies := SavedAllies(rects);
    ParseLongOfIntToString(|allies|);
    assert |allies| <= LastIdx(rects) as int + 1 < 0x1_0000_0000;
  }

  /** Every ally whose rectangle IsOk is among the saved ones, and is below the largest
      unsigned ally when that one has no rectangle. */
  lemma OkIsSaved(rects: Rects, a: u32)
    requires Valid(rects) && 0xFFFF_FFFF !in rects && IsOk(Get(rects, a))
    ensures a < 0xFFFF_FFFF && a in SavedAllies(rects)
  {
    var last := LastIdx(rects);
    assert a in rects && a <= last;
  }

  /** The restriction part of a preset round trip. */
  lemma RestrictionsPresetRoundTrip(mapName: string, rects: Rects, restricted: map<string, i32>,
                                    choose: bool, o: map<string, string>)
    requires NoTabNames(restricted)
    requires "restrictions" in o
    requires o["restrictions"] == PrivatePreset(mapName, rects, restricted, choose)["restrictions"]
    ensures DecodeRestrictions(Lookup(o, "restrictions")) == restricted
  {
    RestrictionsRoundTrip(restricted);
  }
}
