/**
  The live map of script.js as an object: its layers with their paint tables,
  MapLibre's getPaintProperty/setPaintProperty, and the two functions that
  mutate it, applyColorToLayer and applyStyleObject.
*/
module MapStyling {
  import opened Wrappers
  import opened Roles
  import opened Classifier
  import opened Paint

  /** The properties of layer `id` whose setPaintProperty throws. */
  function FailingKeys(failing: set<(string, string)>, id: string): (r: set<string>)
    ensures forall k :: k in r <==> (id, k) in failing
  {
    set e | e in failing && e.0 == id :: e.1
  }

  /** Where the layer called `id` sits, if it exists. */
  function IndexOf(ls: seq<Layer>, id: string): (r: Option<nat>)
    ensures r.Some? ==> r.value < |ls| && ls[r.value].id == id
    ensures r.None? ==> forall i :: 0 <= i < |ls| ==> ls[i].id != id
  {
    if ls == [] then None
    else if ls[0].id == id then Some(0)
    else match IndexOf(ls[1..], id)
      case None => None
      case Some(i) => Some(i + 1)
  }

  /** `ls` with property `key` of the layer called `id` set to `value`. */
  function WithProperty(ls: seq<Layer>, id: string, key: string, value: string): seq<Layer> {
    seq(|ls|, i requires 0 <= i < |ls| =>
      if ls[i].id == id then ls[i].(paint := ls[i].paint[key := value]) else ls[i])
  }

  /** `ls` after applyColorToLayer on the layer called `id`, dispatching on `kind`. */
  function Repainted(ls: seq<Layer>, id: string, kind: LayerType, colour: string, failing: set<string>): seq<Layer> {
    seq(|ls|, i requires 0 <= i < |ls| =>
      if ls[i].id == id then ls[i].(paint := Painted(kind, ls[i].paint, colour, failing)) else ls[i])
  }

  /** What `getPaintProperty(id, key)` reads from `ls`; None is `undefined`. */
  function PaintValue(ls: seq<Layer>, id: string, key: string): Option<string> {
    match IndexOf(ls, id)
    case None => None
    case Some(i) => if key in ls[i].paint then Some(ls[i].paint[key]) else None
  }

  /** `L0` with the paint of the layer called `id` replaced by `p`. */
  function WithPaint(L0: seq<Layer>, id: string, p: PaintTable): seq<Layer> {
    match IndexOf(L0, id)
    case None => L0
    case Some(i) => L0[i := L0[i].(paint := p)]
  }

  lemma WithPaintWrite(L0: seq<Layer>, id: string, p: PaintTable, key: string, value: string)
    requires UniqueIds(L0)
    ensures WithProperty(WithPaint(L0, id, p), id, key, value) == WithPaint(L0, id, p[key := value])
  {
  }

  lemma WithPaintRead(L0: seq<Layer>, id: string, p: PaintTable, key: string)
    requires UniqueIds(L0)
    ensures PaintValue(WithPaint(L0, id, p), id, key).Some? <==> IndexOf(L0, id).Some? && key in p
  {
    match IndexOf(L0, id)
    case None =>
    case Some(i0) =>
      var ls := WithPaint(L0, id, p);
      assert ls[i0].id == id;
      forall i | 0 <= i < |ls| && ls[i].id == id ensures i == i0 { }
  }

  /** One step of WriteUntilFailure. */
  lemma WriteStep(p: PaintTable, todo: seq<(string, string)>, failing: set<string>)
    requires todo != []
    ensures WriteUntilFailure(p, todo, failing) ==
      if todo[0].0 in failing then p else WriteUntilFailure(p[todo[0].0 := todo[0].1], todo[1..], failing)
  {
  }

  lemma WithPaintDone(L0: seq<Layer>, id: string, kind: LayerType, colour: string, failing: set<string>)
    requires UniqueIds(L0)
    ensures var p0 := if IndexOf(L0, id).Some? then L0[IndexOf(L0, id).value].paint else map[];
      var ls := WithPaint(L0, id, Painted(kind, p0, colour, failing));
      UniqueIds(ls) && ls == Repainted(L0, id, kind, colour, failing)
  {
  }

  /** The map object: layers of the loaded style, whether a style is loaded, and the writes that throw. */
  class LiveMap {
    var layers: seq<Layer>
    var styleLoaded: bool
    const failing: set<(string, string)>

    ghost predicate Valid()
      reads this
    {
      UniqueIds(layers)
    }

    constructor (layers: seq<Layer>, styleLoaded: bool, failing: set<(string, string)>)
      requires UniqueIds(layers)
      ensures Valid()
      ensures this.layers == layers && this.styleLoaded == styleLoaded && this.failing == failing
    {
      this.layers := layers;
      this.styleLoaded := styleLoaded;
      this.failing := failing;
    }

    /** `map.getPaintProperty(id, key)`; None is `undefined`. */
    function GetPaintProperty(id: string, key: string): (v: Option<string>)
      reads this
      ensures Valid() ==> forall i :: 0 <= i < |layers| && layers[i].id == id ==>
        v == if key in layers[i].paint then Some(layers[i].paint[key]) else None
      ensures (forall i :: 0 <= i < |layers| ==> layers[i].id != id) ==> v == None
    {
      PaintValue(layers, id, key)
    }

    /**
      `map.setPaintProperty(id, key, value)`: returns false where MapLibre
      throws, in which case nothing is written.
    */
    method SetPaintProperty(id: string, key: string, value: string) returns (ok: bool)
      modifies this`layers
      ensures ok <==> key !in FailingKeys(failing, id)
      ensures layers == if ok then WithProperty(old(layers), id, key, value) else old(layers)
    {
      ok := (id, key) !in failing;
      if ok {
        layers := WithProperty(layers, id, key, value);
      }
    }

    /**
      applyColorToLayer: choose the paint properties by the layer's type and
      write them; a write that throws ends the layer's dispatch (the catch
      swallows it), keeping earlier writes. Only the layer called layer.id
      changes, exactly as Painted says.
    */
    method ApplyColorToLayer(layer: Layer, colour: string)
      requires Valid()
      modifies this`layers
      ensures Valid()
      ensures layers == Repainted(old(layers), layer.id, layer.kind, colour, FailingKeys(failing, layer.id))
    {
      match layer.kind {
        case Background => PaintChannel(layer.id, Background, colour);
        case Fill => PaintChannel(layer.id, Fill, colour);
        case Line => PaintChannel(layer.id, Line, colour);
        case Symbol => PaintSymbol(layer.id, colour);
        case Other(_) => PaintOther(layer.id, layer.kind, colour);
      }
    }

    /** The `background`, `fill` and `line` branches of applyColorToLayer: one write. */
    method PaintChannel(id: string, kind: LayerType, colour: string)
      requires Valid() && (kind.Background? || kind.Fill? || kind.Line?)
      modifies this`layers
      ensures Valid()
      ensures layers == Repainted(old(layers), id, kind, colour, FailingKeys(failing, id))
    {
      ghost var L0 := layers;
      ghost var F := FailingKeys(failing, id);
      ghost var ix := IndexOf(layers, id);
      ghost var p0: PaintTable := if ix.Some? then L0[ix.value].paint else map[];
      assert layers == WithPaint(L0, id, p0);
      var key := ChannelKey(kind);
      WithPaintWrite(L0, id, p0, key, colour);
      ChannelPaint(kind, p0, colour, F);
      var ok := SetPaintProperty(id, key, colour);
      WithPaintDone(L0, id, kind, colour, F);
    }

    /** The `symbol` branch of applyColorToLayer: text-color, else icon-color, then the halo. */
    method PaintSymbol(id: string, colour: string)
      requires Valid()
      modifies this`layers
      ensures Valid()
      ensures layers == Repainted(old(layers), id, Symbol, colour, FailingKeys(failing, id))
    {
      var ok := true;
      ghost var L0 := layers;
      ghost var F := FailingKeys(failing, id);
      ghost var ix := IndexOf(layers, id);
      ghost var p0: PaintTable := if ix.Some? then L0[ix.value].paint else map[];
      ghost var p := p0;
      ghost var todo := Attempts(Symbol, p0, colour);
      assert layers == WithPaint(L0, id, p);
      WithPaintRead(L0, id, p, "text-color");
      WithPaintRead(L0, id, p, "icon-color");
      if GetPaintProperty(id, "text-color").Some? {
        WithPaintWrite(L0, id, p, "text-color", colour);
        assert todo != [] && todo[0] == ("text-color", colour);
        WriteStep(p, todo, F);
        ok := SetPaintProperty(id, "text-color", colour);
        if ok { p, todo := p["text-color" := colour], todo[1..]; }
      } else if GetPaintProperty(id, "icon-color").Some? {
        WithPaintWrite(L0, id, p, "icon-color", colour);
        assert todo != [] && todo[0] == ("icon-color", colour);
        WriteStep(p, todo, F);
        ok := SetPaintProperty(id, "icon-color", colour);
        if ok { p, todo := p["icon-color" := colour], todo[1..]; }
      }
      WithPaintRead(L0, id, p, "text-halo-color");
      if ok && GetPaintProperty(id, "text-halo-color").Some? {
        WithPaintWrite(L0, id, p, "text-halo-color", HaloColour);
        assert todo != [] && todo[0] == ("text-halo-color", HaloColour);
        WriteStep(p, todo, F);
        ok := SetPaintProperty(id, "text-halo-color", HaloColour);
        if ok { p, todo := p["text-halo-color" := HaloColour], todo[1..]; }
      }
      assert WriteUntilFailure(p, todo, F) == Painted(Symbol, p0, colour, F);
      assert WriteUntilFailure(p, todo, F) == p;
      WithPaintDone(L0, id, Symbol, colour, F);
    }

    /** The fallback branch of applyColorToLayer: fill-color and line-color where present. */
    method PaintOther(id: string, kind: LayerType, colour: string)
      requires Valid() && kind.Other?
      modifies this`layers
      ensures Valid()
      ensures layers == Repainted(old(layers), id, kind, colour, FailingKeys(failing, id))
    {
      var ok := true;
      ghost var L0 := layers;
      ghost var F := FailingKeys(failing, id);
      ghost var ix := IndexOf(layers, id);
      ghost var p0: PaintTable := if ix.Some? then L0[ix.value].paint else map[];
      ghost var p := p0;
      ghost var todo := Attempts(kind, p0, colour);
      assert layers == WithPaint(L0, id, p);
      WithPaintRead(L0, id, p, "fill-color");
      if GetPaintProperty(id, "fill-color").Some? {
        WithPaintWrite(L0, id, p, "fill-color", colour);
        assert todo != [] && todo[0] == ("fill-color", colour);
        WriteStep(p, todo, F);
        ok := SetPaintProperty(id, "fill-color", colour);
        if ok { p, todo := p["fill-color" := colour], todo[1..]; }
      }
      WithPaintRead(L0, id, p, "line-color");
      if ok && GetPaintProperty(id, "line-color").Some? {
        WithPaintWrite(L0, id, p, "line-color", colour);
        assert todo != [] && todo[0] == ("line-color", colour);
        WriteStep(p, todo, F);
        ok := SetPaintProperty(id, "line-color", colour);
        if ok { p, todo := p["line-color" := colour], todo[1..]; }
      }
      assert WriteUntilFailure(p, todo, F) == Painted(kind, p0, colour, F);
      assert WriteUntilFailure(p, todo, F) == p;
      WithPaintDone(L0, id, kind, colour, F);
    }
  }

  /** `findLayersByKeyword`: no layers while no map or no style is loaded, otherwise the filter. */
  function FindLayersByKeyword(m: LiveMap?, keywords: seq<string>): (r: seq<Layer>)
    reads m
    ensures m == null || !m.styleLoaded ==> r == []
    ensures m != null && m.styleLoaded ==> r == MatchingLayers(m.layers, keywords)
  {
    if m == null || !m.styleLoaded then [] else MatchingLayers(m.layers, keywords)
  }

  /** `if (!color) return;`: a role is applied only when its colour is present and non-empty. */
  predicate HasColour(style: map<Role, string>, r: Role) {
    r in style && style[r] != ""
  }

  /** A layer after applyColorToLayer(l, colour). */
  function Recoloured(l: Layer, colour: string, failing: set<(string, string)>): Layer {
    l.(paint := Painted(l.kind, l.paint, colour, FailingKeys(failing, l.id)))
  }

  /** One role's pass over one layer: recoloured when the role's keywords select it. */
  function RolePass(l: Layer, keywords: seq<string>, colour: string, failing: set<(string, string)>): Layer {
    if Matches(l, keywords) then Recoloured(l, colour, failing) else l
  }

  /** The layers after one role's pass: unchanged when the role has no colour. */
  function RoleApplied(ls: seq<Layer>, style: map<Role, string>, role: Role, failing: set<(string, string)>): seq<Layer> {
    if HasColour(style, role) then
      seq(|ls|, i requires 0 <= i < |ls| => RolePass(ls[i], Keywords(role), style[role], failing))
    else ls
  }

  /** A layer after the first `n` roles of RoleOrder have been applied; only its paint changes. */
  function StyledLayer(l: Layer, style: map<Role, string>, failing: set<(string, string)>, n: nat): (r: Layer)
    requires n <= |RoleOrder|
    ensures r.id == l.id && r.kind == l.kind && r.sourceLayer == l.sourceLayer
  {
    if n == 0 then l
    else
      var prev := StyledLayer(l, style, failing, n - 1);
      var role := RoleOrder[n - 1];
      if HasColour(style, role) then RolePass(prev, Keywords(role), style[role], failing) else prev
  }

  function StyledUpTo(ls: seq<Layer>, style: map<Role, string>, failing: set<(string, string)>, n: nat): seq<Layer>
    requires n <= |RoleOrder|
  {
    seq(|ls|, i requires 0 <= i < |ls| => StyledLayer(ls[i], style, failing, n))
  }

  /** The layers after applyStyleObject has run over all five roles. */
  function Styled(ls: seq<Layer>, style: map<Role, string>, failing: set<(string, string)>): seq<Layer> {
    StyledUpTo(ls, style, failing, |RoleOrder|)
  }

  /** Styling keeps the layer list: same length, same ids and types, ids still unique. */
  lemma StyledKeepsLayers(ls: seq<Layer>, style: map<Role, string>, failing: set<(string, string)>)
    ensures |Styled(ls, style, failing)| == |ls|
    ensures forall i :: 0 <= i < |ls| ==>
      Styled(ls, style, failing)[i].id == ls[i].id && Styled(ls, style, failing)[i].kind == ls[i].kind
    ensures UniqueIds(ls) ==> UniqueIds(Styled(ls, style, failing))
  {
  }

  /** The roles reported as "No layers matched", in RoleOrder, among the first `n`. */
  function UnmatchedRoles(ls: seq<Layer>, loaded: bool, style: map<Role, string>, n: nat): seq<Role>
    requires n <= |RoleOrder|
  {
    if n == 0 then []
    else
      var role := RoleOrder[n - 1];
      UnmatchedRoles(ls, loaded, style, n - 1)
      + (if HasColour(style, role) && (!loaded || NoneMatch(ls, Keywords(role))) then [role] else [])
  }

  /** The picker values after the sync loop: a picker that exists shows its role's colour when set. */
  function SyncedPickers(pickers: map<Role, string>, style: map<Role, string>): map<Role, string> {
    map r | r in pickers :: if HasColour(style, r) then style[r] else pickers[r]
  }

  /** `cur` is `before` with exactly the layers in `done` recoloured. */
  ghost predicate RecolouredExactly(cur: seq<Layer>, before: seq<Layer>, done: seq<Layer>, colour: string, failing: set<(string, string)>) {
    |cur| == |before| &&
    forall i :: 0 <= i < |before| ==> cur[i] == if before[i] in done then Recoloured(before[i], colour, failing) else before[i]
  }

  /** Recolouring one more layer of `before`, not yet done, by its id. */
  lemma RecolourNext(cur: seq<Layer>, before: seq<Layer>, done: seq<Layer>, layer: Layer, colour: string, failing: set<(string, string)>)
    requires UniqueIds(before) && RecolouredExactly(cur, before, done, colour, failing)
    requires layer in before && layer !in done
    ensures UniqueIds(cur)
    ensures RecolouredExactly(Repainted(cur, layer.id, layer.kind, colour, FailingKeys(failing, layer.id)), before, done + [layer], colour, failing)
  {
    var i0 :| 0 <= i0 < |before| && before[i0] == layer;
    forall i | 0 <= i < |before| && before[i].id == layer.id ensures i == i0 { }
  }

  /** Once every selected layer is done, the layers are exactly one role's pass. */
  lemma RecolouredAll(cur: seq<Layer>, before: seq<Layer>, keywords: seq<string>, colour: string, failing: set<(string, string)>)
    requires RecolouredExactly(cur, before, MatchingLayers(before, keywords), colour, failing)
    ensures cur == seq(|before|, i requires 0 <= i < |before| => RolePass(before[i], keywords, colour, failing))
  {
  }

  /** With unique ids, the layer at `j` is not among those before it. */
  lemma NotYetDone(ls: seq<Layer>, j: nat)
    requires UniqueIds(ls) && j < |ls|
    ensures ls[j] !in ls[..j]
    ensures ls[..j + 1] == ls[..j] + [ls[j]]
  {
  }

  /**
    `matched.forEach(layer => applyColorToLayer(layer, color))`: every layer
    the keywords select gets the colour, each one independently of the others.
  */
  method ColourMatched(m: LiveMap, matched: seq<Layer>, colour: string, ghost keywords: seq<string>)
    requires m.Valid()
    requires matched == FindLayersByKeyword(m, keywords)
    modifies m`layers
    ensures m.Valid()
    ensures m.layers == if m.styleLoaded
      then seq(|old(m.layers)|, i requires 0 <= i < |old(m.layers)| => RolePass(old(m.layers)[i], keywords, colour, m.failing))
      else old(m.layers)
  {
    ghost var before := m.layers;
    if m.styleLoaded {
      MatchingLayersUniqueIds(before, keywords);
    }
    assert UniqueIds(matched) && forall l :: l in matched ==> l in before;
    var j := 0;
    while j < |matched|
      invariant 0 <= j <= |matched|
      invariant m.Valid()
      invariant RecolouredExactly(m.layers, before, matched[..j], colour, m.failing)
    {
      var layer := matched[j];
      NotYetDone(matched, j);
      RecolourNext(m.layers, before, matched[..j], layer, colour, m.failing);
      m.ApplyColorToLayer(layer, colour);
      j := j + 1;
    }
    assert matched[..j] == matched;
    if m.styleLoaded {
      RecolouredAll(m.layers, before, keywords, colour, m.failing);
    }
  }

  lemma StyledNone(ls: seq<Layer>, style: map<Role, string>, failing: set<(string, string)>)
    ensures StyledUpTo(ls, style, failing, 0) == ls
  {
  }

  lemma StyledNext(ls: seq<Layer>, style: map<Role, string>, failing: set<(string, string)>, k: nat)
    requires k < |RoleOrder|
    ensures StyledUpTo(ls, style, failing, k + 1) == RoleApplied(StyledUpTo(ls, style, failing, k), style, RoleOrder[k], failing)
  {
  }

  /** A role warns about the same layers before and after earlier roles ran: paint does not affect matching. */
  lemma NoneMatchStyled(ls: seq<Layer>, style: map<Role, string>, failing: set<(string, string)>, k: nat, keywords: seq<string>)
    requires k <= |RoleOrder|
    ensures NoneMatch(StyledUpTo(ls, style, failing, k), keywords) <==> NoneMatch(ls, keywords)
  {
    var cur := StyledUpTo(ls, style, failing, k);
    forall i | 0 <= i < |ls| ensures Matches(cur[i], keywords) == Matches(ls[i], keywords) {
      assert cur[i].id == ls[i].id && cur[i].sourceLayer == ls[i].sourceLayer;
    }
  }

  /** The pickers after the sync loop has visited the first `j` roles. */
  function SyncedUpTo(pickers: map<Role, string>, style: map<Role, string>, j: nat): map<Role, string>
    requires j <= |RoleOrder|
  {
    if j == 0 then pickers
    else
      var prev := SyncedUpTo(pickers, style, j - 1);
      var role := RoleOrder[j - 1];
      if role in prev && HasColour(style, role) then prev[role := style[role]] else prev
  }

  /**
    After the sync loop every existing picker shows its role's colour when the
    style sets one and keeps its value otherwise; no picker appears.
  */
  lemma SyncedPickersAll(pickers: map<Role, string>, style: map<Role, string>)
    ensures SyncedUpTo(pickers, style, |RoleOrder|) == SyncedPickers(pickers, style)
  {
    var s5 := SyncedUpTo(pickers, style, |RoleOrder|);
    SyncedUpToAt(pickers, style, |RoleOrder|, Water);
    forall r | r in pickers ensures s5[r] == SyncedPickers(pickers, style)[r] {
      SyncedUpToAt(pickers, style, |RoleOrder|, r);
    }
  }

  /** After `j` steps, the pickers of the roles visited so far are synced and the rest untouched. */
  lemma {:induction false} SyncedUpToAt(pickers: map<Role, string>, style: map<Role, string>, j: nat, r: Role)
    requires j <= |RoleOrder|
    ensures SyncedUpTo(pickers, style, j).Keys == pickers.Keys
    ensures r in pickers ==>
      SyncedUpTo(pickers, style, j)[r] == if RoleIndex(r) < j && HasColour(style, r) then style[r] else pickers[r]
  {
    if j > 0 {
      SyncedUpToAt(pickers, style, j - 1, r);
    }
  }

  /**
    One role of applyStyleObject's `Object.keys(targets).forEach`: a role
    without a colour is skipped; otherwise its keywords select the layers,
    an empty selection is warned about, and every selected layer is coloured.
  */
  method ApplyRole(m: LiveMap, style: map<Role, string>, role: Role) returns (warned: bool)
    requires m.Valid()
    modifies m`layers
    ensures m.Valid()
    ensures warned <==> HasColour(style, role) && (!m.styleLoaded || NoneMatch(old(m.layers), Keywords(role)))
    ensures m.layers == if m.styleLoaded then RoleApplied(old(m.layers), style, role, m.failing) else old(m.layers)
  {
    warned := false;
    if role !in style || style[role] == "" {
      return;
    }
    var colour := style[role];
    var kws := Keywords(role);
    var matched := FindLayersByKeyword(m, kws);
    MatchingNoneIff(m.layers, kws);
    if |matched| == 0 {
      warned := true;
    }
    ColourMatched(m, matched, colour, kws);
  }

  /**
    The picker loop of applyStyleObject: each role in turn, a picker that
    exists takes the role's colour when the style sets one.
  */
  method SyncPickers(pickers: map<Role, string>, style: map<Role, string>) returns (shown: map<Role, string>)
    ensures shown == SyncedPickers(pickers, style)
  {
    shown := pickers;
    var j := 0;
    while j < |RoleOrder|
      invariant 0 <= j <= |RoleOrder|
      invariant shown == SyncedUpTo(pickers, style, j)
    {
      var role := RoleOrder[j];
      if role in shown && role in style && style[role] != "" {
        shown := shown[role := style[role]];
      }
      j := j + 1;
    }
    SyncedPickersAll(pickers, style);
  }

  /**
    The role loop of applyStyleObject: each role of RoleOrder in turn.
    Returns the roles warned about, in order.
  */
  method ApplyRoles(m: LiveMap, style: map<Role, string>) returns (unmatched: seq<Role>)
    requires m.Valid()
    modifies m`layers
    ensures m.Valid()
    ensures m.layers == if m.styleLoaded then Styled(old(m.layers), style, m.failing) else old(m.layers)
    ensures unmatched == UnmatchedRoles(old(m.layers), m.styleLoaded, style, |RoleOrder|)
  {
    ghost var L0 := m.layers;
    ghost var loaded := m.styleLoaded;
    ghost var F := m.failing;
    StyledNone(L0, style, F);
    unmatched := [];
    var k := 0;
    while k < |RoleOrder|
      invariant 0 <= k <= |RoleOrder|
      invariant m.Valid()
      invariant m.layers == if loaded then StyledUpTo(L0, style, F, k) else L0
      invariant unmatched == UnmatchedRoles(L0, loaded, style, k)
    {
      var role := RoleOrder[k];
      NoneMatchStyled(L0, style, F, k, Keywords(role));
      StyledNext(L0, style, F, k);
      var warned := ApplyRole(m, style, role);
      if warned {
        unmatched := unmatched + [role];
      }
      k := k + 1;
    }
  }

  /**
    applyStyleObject: nothing without a map; otherwise the role loop, then
    the picker sync. Returns the roles that matched no layer (the console
    warnings) and the pickers.
  */
  method ApplyStyleObject(m: LiveMap?, style: map<Role, string>, pickers: map<Role, string>)
    returns (unmatched: seq<Role>, shown: map<Role, string>)
    requires m != null ==> m.Valid()
    modifies m
    ensures m == null ==> unmatched == [] && shown == pickers
    ensures m != null ==> m.Valid() && m.styleLoaded == old(m.styleLoaded)
    ensures m != null ==> m.layers == if m.styleLoaded then Styled(old(m.layers), style, m.failing) else old(m.layers)
    ensures m != null ==> unmatched == UnmatchedRoles(old(m.layers), m.styleLoaded, style, |RoleOrder|)
    ensures m != null ==> shown == SyncedPickers(pickers, style)
  {
    if m == null {
      return [], pickers;
    }
    unmatched := ApplyRoles(m, style);
    shown := SyncPickers(pickers, style);
  }

  /**
    The reference answer for one layer: the colour of the last role, in
    RoleOrder among the first `n`, that has a colour and whose keywords select
    the layer.
  */
  function LastColour(l: Layer, style: map<Role, string>, n: nat): Option<string>
    requires n <= |RoleOrder|
  {
    if n == 0 then None
    else
      var role := RoleOrder[n - 1];
      if HasColour(style, role) && Matches(l, Keywords(role)) then Some(style[role])
      else LastColour(l, style, n - 1)
  }

  /** Matching reads only the id and source-layer, so it ignores paint. */
  lemma LastColourIgnoresPaint(l: Layer, p: PaintTable, style: map<Role, string>, n: nat)
    requires n <= |RoleOrder|
    ensures LastColour(l.(paint := p), style, n) == LastColour(l, style, n)
  {
  }

  /**
    A layer selected by several roles ends with the colour of the last of
    them: the earlier passes are overwritten completely, also where writes
    fail, since the same writes fail every time.
  */
  lemma {:induction false} LastRoleWins(l: Layer, style: map<Role, string>, failing: set<(string, string)>, n: nat)
    requires n <= |RoleOrder|
    ensures StyledLayer(l, style, failing, n) ==
      match LastColour(l, style, n)
      case None => l
      case Some(c) => Recoloured(l, c, failing)
  {
    if n > 0 {
      LastRoleWins(l, style, failing, n - 1);
      var role := RoleOrder[n - 1];
      var prev := StyledLayer(l, style, failing, n - 1);
      MatchesIgnoresPaint(l, prev.paint, Keywords(role));
      assert prev == l.(paint := prev.paint);
      if HasColour(style, role) && Matches(l, Keywords(role)) {
        match LastColour(l, style, n - 1) {
          case None =>
          case Some(c) =>
            PaintedOverwrite(l.kind, l.paint, c, style[role], FailingKeys(failing, l.id));
        }
      }
    }
  }

  /** Applying the same style twice leaves the same paint as applying it once. */
  lemma StyledIdempotent(ls: seq<Layer>, style: map<Role, string>, failing: set<(string, string)>)
    ensures Styled(Styled(ls, style, failing), style, failing) == Styled(ls, style, failing)
  {
    var once := Styled(ls, style, failing);
    forall i | 0 <= i < |ls|
      ensures StyledLayer(once[i], style, failing, |RoleOrder|) == once[i]
    {
      var l := ls[i];
      LastRoleWins(l, style, failing, |RoleOrder|);
      LastRoleWins(once[i], style, failing, |RoleOrder|);
      LastColourIgnoresPaint(l, once[i].paint, style, |RoleOrder|);
      assert once[i] == l.(paint := once[i].paint);
      match LastColour(l, style, |RoleOrder|) {
        case None =>
        case Some(c) =>
          PaintedOverwrite(l.kind, l.paint, c, c, FailingKeys(failing, l.id));
      }
    }
  }

  /**
    Failures are isolated: a layer's final paint depends only on its own
    failing properties, so every layer without any ends exactly as if no
    write had failed anywhere.
  */
  lemma FailureIsolation(ls: seq<Layer>, style: map<Role, string>, failing: set<(string, string)>, i: nat)
    requires i < |ls| && FailingKeys(failing, ls[i].id) == {}
    ensures Styled(ls, style, failing)[i] == Styled(ls, style, {})[i]
  {
    LastRoleWins(ls[i], style, failing, |RoleOrder|);
    LastRoleWins(ls[i], style, {}, |RoleOrder|);
    assert FailingKeys({}, ls[i].id) == {};
  }

  /** A style with no colour set leaves every layer as it was. */
  lemma NoColourNoChange(ls: seq<Layer>, style: map<Role, string>, failing: set<(string, string)>)
    requires forall r :: !HasColour(style, r)
    ensures Styled(ls, style, failing) == ls
  {
    forall i | 0 <= i < |ls| ensures Styled(ls, style, failing)[i] == ls[i] {
      LastRoleWins(ls[i], style, failing, |RoleOrder|);
      NoColourNoLast(ls[i], style, |RoleOrder|);
    }
  }

  lemma {:induction false} NoColourNoLast(l: Layer, style: map<Role, string>, n: nat)
    requires n <= |RoleOrder| && forall r :: !HasColour(style, r)
    ensures LastColour(l, style, n) == None
  {
    if n > 0 {
      NoColourNoLast(l, style, n - 1);
    }
  }

  /**
    Three road layers, the second of which throws on every write: the first
    and the third still take the roads colour and the second keeps its paint.
  */
  lemma ThreeRoadsOneFailing()
    ensures var ls := [
        Layer("road-primary", Line, None, map["line-color" := "#aaaaaa"]),
        Layer("road-secondary", Line, None, map["line-color" := "#bbbbbb"]),
        Layer("road-minor", Line, Some("transportation"), map["line-color" := "#cccccc"])];
      var out := Styled(ls, map[Roads := "#ff0000"], {("road-secondary", "line-color")});
      && out[0].paint == map["line-color" := "#ff0000"]
      && out[1] == ls[1]
      && out[2].paint == map["line-color" := "#ff0000"]
  {
    var ls := [
        Layer("road-primary", Line, None, map["line-color" := "#aaaaaa"]),
        Layer("road-secondary", Line, None, map["line-color" := "#bbbbbb"]),
        Layer("road-minor", Line, Some("transportation"), map["line-color" := "#cccccc"])];
    var style := map[Roads := "#ff0000"];
    var failing := {("road-secondary", "line-color")};
    forall i | 0 <= i < 3
      ensures LastColour(ls[i], style, |RoleOrder|) == Some("#ff0000")
      ensures Styled(ls, style, failing)[i] == Recoloured(ls[i], "#ff0000", failing)
    {
      assert ToLower(ls[i].id)[..4] == "road";
      assert Includes(ToLower(ls[i].id), "road");
      assert Matches(ls[i], Keywords(Roads));
      LastRoleWins(ls[i], style, failing, |RoleOrder|);
    }
    ChannelPaint(Line, ls[0].paint, "#ff0000", FailingKeys(failing, ls[0].id));
    ChannelPaint(Line, ls[1].paint, "#ff0000", FailingKeys(failing, ls[1].id));
    ChannelPaint(Line, ls[2].paint, "#ff0000", FailingKeys(failing, ls[2].id));
  }
}
