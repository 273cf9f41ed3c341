/**
  What `applyColorToLayer` (script.js) writes into one layer's paint table:
  which properties it sets for each layer type, and how a write that throws
  cuts the rest of that layer's writes short.
*/
module Paint {
  import opened Classifier

  /** The fixed halo colour written to symbol layers that have a halo. */
  const HaloColour: string := "#ffffff33"

  /** A paint table: property name to value. */
  type PaintTable = map<string, string>

  /**
    The (property, value) writes applyColorToLayer issues, in order, on a layer
    of type `kind` whose paint table is `p`. Presence is read from `p`: no
    write adds or removes a property that a later presence test looks at.
  */
  function Attempts(kind: LayerType, p: PaintTable, colour: string): seq<(string, string)> {
    match kind
    case Background => [("background-color", colour)]
    case Fill => [("fill-color", colour)]
    case Line => [("line-color", colour)]
    case Symbol =>
      (if "text-color" in p then [("text-color", colour)]
       else if "icon-color" in p then [("icon-color", colour)]
       else [])
      + (if "text-halo-color" in p then [("text-halo-color", HaloColour)] else [])
    case Other(_) =>
      (if "fill-color" in p then [("fill-color", colour)] else [])
      + (if "line-color" in p then [("line-color", colour)] else [])
  }

  /**
    Performs `writes` in order. A write to a property in `failing` throws: the
    catch around the whole dispatch swallows it, so that write and every later
    one are skipped while the earlier ones stay.
  */
  function WriteUntilFailure(p: PaintTable, writes: seq<(string, string)>, failing: set<string>): PaintTable
    decreases |writes|
  {
    if writes == [] || writes[0].0 in failing then p
    else WriteUntilFailure(p[writes[0].0 := writes[0].1], writes[1..], failing)
  }

  /** The paint table after applyColorToLayer(layer, colour). */
  function Painted(kind: LayerType, p: PaintTable, colour: string, failing: set<string>): PaintTable {
    WriteUntilFailure(p, Attempts(kind, p, colour), failing)
  }

  /**
    The planned writes go to distinct properties; each carries the colour,
    except the halo write; symbol and fallback layers only plan writes to
    properties the layer already has.
  */
  lemma AttemptsShape(kind: LayerType, p: PaintTable, colour: string)
    ensures DistinctKeys(Attempts(kind, p, colour))
    ensures forall w :: w in Attempts(kind, p, colour) ==> w.1 == colour || w == ("text-halo-color", HaloColour)
    ensures kind.Symbol? || kind.Other? ==> forall w :: w in Attempts(kind, p, colour) ==> w.0 in p
  {
  }

  /**
    applyColorToLayer never removes a property; a background, fill or line
    layer gains at most its channel property, and the other types gain none.
  */
  lemma PaintedKeys(kind: LayerType, p: PaintTable, colour: string, failing: set<string>)
    ensures kind.Symbol? || kind.Other? ==> Painted(kind, p, colour, failing).Keys == p.Keys
    ensures kind.Background? || kind.Fill? || kind.Line? ==>
      p.Keys <= Painted(kind, p, colour, failing).Keys <= p.Keys + {ChannelKey(kind)}
  {
    AttemptsShape(kind, p, colour);
    WriteKeys(p, Attempts(kind, p, colour), failing);
  }

  /** Writes add only the properties they name and remove none. */
  lemma {:induction false} WriteKeys(p: PaintTable, writes: seq<(string, string)>, failing: set<string>)
    ensures var r := WriteUntilFailure(p, writes, failing);
      p.Keys <= r.Keys && forall k :: k in r ==> k in p || exists w :: w in writes && w.0 == k
    decreases |writes|
  {
    if writes != [] && writes[0].0 !in failing {
      WriteKeys(p[writes[0].0 := writes[0].1], writes[1..], failing);
      forall k | k in WriteUntilFailure(p, writes, failing) && k !in p
        ensures exists w :: w in writes && w.0 == k
      {
        if k != writes[0].0 {
          var w :| w in writes[1..] && w.0 == k;
          assert w in writes;
        }
      }
    }
  }

  /** The one property a background, fill or line layer's colour goes to. */
  function ChannelKey(kind: LayerType): string
    requires kind.Background? || kind.Fill? || kind.Line?
  {
    match kind
    case Background => "background-color"
    case Fill => "fill-color"
    case Line => "line-color"
  }

  /**
    Background, fill and line layers: exactly their channel property is set to
    the colour (created if it was absent); nothing else changes; a failing
    write leaves the table as it was.
  */
  lemma ChannelPaint(kind: LayerType, p: PaintTable, colour: string, failing: set<string>)
    requires kind.Background? || kind.Fill? || kind.Line?
    ensures ChannelKey(kind) !in failing ==> Painted(kind, p, colour, failing) == p[ChannelKey(kind) := colour]
    ensures ChannelKey(kind) in failing ==> Painted(kind, p, colour, failing) == p
  {
    WriteOne(p, (ChannelKey(kind), colour), failing);
  }

  /** A single write: done unless it throws. */
  lemma WriteOne(p: PaintTable, w: (string, string), failing: set<string>)
    ensures WriteUntilFailure(p, [w], failing) == if w.0 in failing then p else p[w.0 := w.1]
  {
    assert [w][1..] == [];
    assert WriteUntilFailure(p[w.0 := w.1], [], failing) == p[w.0 := w.1];
  }

  /**
    Symbol layers: no property is created; text-color takes the colour when
    present, else icon-color does; text-halo-color, when present, becomes the
    halo colour unless the colour write before it threw; all else is kept.
    A throwing colour write leaves the whole table as it was; a throwing halo
    write leaves the halo as it was.
  */
  lemma SymbolPaint(p: PaintTable, colour: string, failing: set<string>)
    ensures Painted(Symbol, p, colour, failing).Keys == p.Keys
    ensures "text-color" in p && "text-color" !in failing ==>
      Painted(Symbol, p, colour, failing)["text-color"] == colour
    ensures "text-color" !in p && "icon-color" in p && "icon-color" !in failing ==>
      Painted(Symbol, p, colour, failing)["icon-color"] == colour
    ensures "text-color" in p && "icon-color" in p ==>
      Painted(Symbol, p, colour, failing)["icon-color"] == p["icon-color"]
    ensures "text-halo-color" in p && "text-halo-color" !in failing
      && ("text-color" in p ==> "text-color" !in failing)
      && ("text-color" !in p && "icon-color" in p ==> "icon-color" !in failing)
      ==> Painted(Symbol, p, colour, failing)["text-halo-color"] == HaloColour
    ensures forall k :: k in p && k != "text-color" && k != "icon-color" && k != "text-halo-color" ==>
      Painted(Symbol, p, colour, failing)[k] == p[k]
    ensures "text-color" in p && "text-color" in failing ==> Painted(Symbol, p, colour, failing) == p
    ensures "text-color" !in p && "icon-color" in p && "icon-color" in failing ==> Painted(Symbol, p, colour, failing) == p
    ensures "text-halo-color" in p && "text-halo-color" in failing ==>
      Painted(Symbol, p, colour, failing)["text-halo-color"] == p["text-halo-color"]
  {
    var first: seq<(string, string)> :=
      if "text-color" in p then [("text-color", colour)]
      else if "icon-color" in p then [("icon-color", colour)]
      else [];
    var halo: seq<(string, string)> := if "text-halo-color" in p then [("text-halo-color", HaloColour)] else [];
    TwoWrites(p, first, halo, failing);
  }

  /**
    Other layer types: fill-color and line-color are overwritten only where
    present (line-color only if the fill-color write did not throw); no
    property is created; a layer with neither is left unchanged. A throwing
    fill-color write leaves the whole table as it was; a throwing line-color
    write leaves line-color as it was.
  */
  lemma OtherPaint(name: string, p: PaintTable, colour: string, failing: set<string>)
    ensures Painted(Other(name), p, colour, failing).Keys == p.Keys
    ensures "fill-color" in p && "fill-color" !in failing ==>
      Painted(Other(name), p, colour, failing)["fill-color"] == colour
    ensures "line-color" in p && "line-color" !in failing && ("fill-color" in p ==> "fill-color" !in failing) ==>
      Painted(Other(name), p, colour, failing)["line-color"] == colour
    ensures forall k :: k in p && k != "fill-color" && k != "line-color" ==>
      Painted(Other(name), p, colour, failing)[k] == p[k]
    ensures "fill-color" !in p && "line-color" !in p ==> Painted(Other(name), p, colour, failing) == p
    ensures "fill-color" in p && "fill-color" in failing ==> Painted(Other(name), p, colour, failing) == p
    ensures "line-color" in p && "line-color" in failing ==>
      Painted(Other(name), p, colour, failing)["line-color"] == p["line-color"]
  {
    var fill: seq<(string, string)> := if "fill-color" in p then [("fill-color", colour)] else [];
    var line: seq<(string, string)> := if "line-color" in p then [("line-color", colour)] else [];
    TwoWrites(p, fill, line, failing);
  }

  /** At most two writes to properties already present: the shape of the symbol and fallback rules. */
  lemma TwoWrites(p: PaintTable, u: seq<(string, string)>, v: seq<(string, string)>, failing: set<string>)
    requires |u| <= 1 && |v| <= 1
    requires forall w :: w in u + v ==> w.0 in p
    requires |u| == 1 && |v| == 1 ==> u[0].0 != v[0].0
    ensures var r := WriteUntilFailure(p, u + v, failing);
      && r.Keys == p.Keys
      && (|u| == 1 && u[0].0 !in failing ==> r[u[0].0] == u[0].1)
      && (|v| == 1 && v[0].0 !in failing && (|u| == 1 ==> u[0].0 !in failing) ==> r[v[0].0] == v[0].1)
      && (forall k :: k in p && (forall w :: w in u + v ==> w.0 != k) ==> r[k] == p[k])
      && (|u| == 1 && u[0].0 in failing ==> r == p)
      && (|v| == 1 && v[0].0 in failing ==> r[v[0].0] == p[v[0].0])
  {
    var r := WriteUntilFailure(p, u + v, failing);
    if |u| == 1 {
      assert (u + v)[0] == u[0];
      assert (u + v)[1..] == v;
      if u[0].0 !in failing {
        var q := p[u[0].0 := u[0].1];
        assert r == WriteUntilFailure(q, v, failing);
        if |v| == 1 {
          assert v == [v[0]];
          WriteOne(q, v[0], failing);
        } else {
          assert r == q;
        }
      }
    } else {
      assert u + v == v;
      if |v| == 1 {
        assert v == [v[0]];
        WriteOne(p, v[0], failing);
      }
    }
  }

  /** The writes target distinct properties. */
  predicate DistinctKeys(ws: seq<(string, string)>) {
    forall i, j :: 0 <= i < j < |ws| ==> ws[i].0 != ws[j].0
  }

  /** Two write lists that target the same properties in the same order. */
  predicate SameKeys(ws: seq<(string, string)>, vs: seq<(string, string)>) {
    |ws| == |vs| && forall i :: 0 <= i < |ws| ==> ws[i].0 == vs[i].0
  }

  /** Setting a property no write touches commutes with the writes. */
  lemma {:induction false} WriteCommutes(p: PaintTable, ws: seq<(string, string)>, failing: set<string>, k: string, x: string)
    requires forall w :: w in ws ==> w.0 != k
    ensures WriteUntilFailure(p, ws, failing)[k := x] == WriteUntilFailure(p[k := x], ws, failing)
    decreases |ws|
  {
    if ws != [] && ws[0].0 !in failing {
      assert p[k := x][ws[0].0 := ws[0].1] == p[ws[0].0 := ws[0].1][k := x];
      forall w | w in ws[1..] ensures w.0 != k { assert w in ws; }
      WriteCommutes(p[ws[0].0 := ws[0].1], ws[1..], failing, k, x);
    }
  }

  /**
    Re-running writes to the same distinct properties overwrites the earlier
    run completely: they fail at the same point and set the same properties.
  */
  lemma {:induction false} RewriteSameKeys(p: PaintTable, ws: seq<(string, string)>, vs: seq<(string, string)>, failing: set<string>)
    requires SameKeys(ws, vs) && DistinctKeys(ws)
    ensures WriteUntilFailure(WriteUntilFailure(p, ws, failing), vs, failing) == WriteUntilFailure(p, vs, failing)
    decreases |ws|
  {
    if ws != [] && ws[0].0 !in failing {
      var k := ws[0].0;
      forall w | w in ws[1..] ensures w.0 != k {
        var j :| 0 <= j < |ws[1..]| && ws[1..][j] == w;
        assert ws[j + 1] == w;
      }
      WriteCommutes(p[k := ws[0].1], ws[1..], failing, k, vs[0].1);
      assert p[k := ws[0].1][k := vs[0].1] == p[k := vs[0].1];
      RewriteSameKeys(p[k := vs[0].1], ws[1..], vs[1..], failing);
    }
  }

  /**
    Colouring a layer again replaces the previous colouring entirely: with the
    same failing properties, colour `a` then colour `b` leaves what `b` alone
    leaves. With a == b this is idempotence of applyColorToLayer.
  */
  lemma PaintedOverwrite(kind: LayerType, p: PaintTable, a: string, b: string, failing: set<string>)
    ensures Painted(kind, Painted(kind, p, a, failing), b, failing) == Painted(kind, p, b, failing)
  {
    match kind {
      case Background => ChannelOverwrite(kind, p, a, b, failing);
      case Fill => ChannelOverwrite(kind, p, a, b, failing);
      case Line => ChannelOverwrite(kind, p, a, b, failing);
      case Symbol =>
        SymbolPaint(p, a, failing);
        PresenceOverwrite(kind, p, a, b, failing);
      case Other(name) =>
        OtherPaint(name, p, a, failing);
        PresenceOverwrite(kind, p, a, b, failing);
    }
  }

  lemma ChannelOverwrite(kind: LayerType, p: PaintTable, a: string, b: string, failing: set<string>)
    requires kind.Background? || kind.Fill? || kind.Line?
    ensures Painted(kind, Painted(kind, p, a, failing), b, failing) == Painted(kind, p, b, failing)
  {
    ChannelPaint(kind, p, a, failing);
    ChannelPaint(kind, Painted(kind, p, a, failing), b, failing);
    ChannelPaint(kind, p, b, failing);
  }

  /** The symbol and fallback rules, once the first colouring is known to keep the keys. */
  lemma PresenceOverwrite(kind: LayerType, p: PaintTable, a: string, b: string, failing: set<string>)
    requires kind.Symbol? || kind.Other?
    requires Painted(kind, p, a, failing).Keys == p.Keys
    ensures Painted(kind, Painted(kind, p, a, failing), b, failing) == Painted(kind, p, b, failing)
  {
    AttemptsKeys(kind, p, a, b);
    assert Attempts(kind, Painted(kind, p, a, failing), b) == Attempts(kind, p, b);
    RewriteSameKeys(p, Attempts(kind, p, a), Attempts(kind, p, b), failing);
  }

  /** Whatever the colour, a layer's writes go to the same distinct properties. */
  lemma AttemptsKeys(kind: LayerType, p: PaintTable, a: string, b: string)
    ensures SameKeys(Attempts(kind, p, a), Attempts(kind, p, b))
  {
    var ws, vs := Attempts(kind, p, a), Attempts(kind, p, b);
    assert |ws| == |vs|;
    forall i | 0 <= i < |ws| ensures ws[i].0 == vs[i].0 {
      match kind {
        case Background => case Fill => case Line =>
        case Symbol =>
          if "text-color" !in p && "icon-color" !in p {
            assert ws[i].0 == "text-halo-color" == vs[i].0;
          } else if i == 1 {
            assert ws[i].0 == "text-halo-color" == vs[i].0;
          }
        case Other(_) =>
          if "fill-color" !in p || i == 1 {
            assert ws[i].0 == "line-color" == vs[i].0;
          }
      }
    }
  }
}
