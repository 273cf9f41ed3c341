/**
  Layer classification of script.js: which layers of the loaded map style a
  role's keywords select (`findLayersByKeyword` and the keyword table of
  `applyStyleObject`).
*/
module Classifier {
  import opened Wrappers
  import opened Roles

  /** A layer's `type`; types the applicator has no rule for keep their name. */
  datatype LayerType = Background | Fill | Line | Symbol | Other(name: string)

  /**
    One entry of the style's `layers` array: its `id` (a missing id reads as ""),
    `type`, optional `source-layer` and its paint table.
  */
  datatype Layer = Layer(id: string, kind: LayerType, sourceLayer: Option<string>, paint: map<string, string>)

  /** MapLibre keeps layer ids unique within a style. */
  predicate UniqueIds(ls: seq<Layer>) {
    forall i, j :: 0 <= i < j < |ls| ==> ls[i].id != ls[j].id
  }

  /** `toLowerCase` on one character (ASCII letters only). */
  function LowerChar(c: char): char {
    if 'A' <= c <= 'Z' then (c as int - 'A' as int + 'a' as int) as char else c
  }

  function ToLower(s: string): string {
    seq(|s|, i requires 0 <= i < |s| => LowerChar(s[i]))
  }

  /** `k` occurs in `s` starting at index `i`. */
  predicate OccursAt(s: string, k: string, i: int) {
    0 <= i && i + |k| <= |s| && s[i..i + |k|] == k
  }

  /** `s.includes(k)`, scanning `s` from the left. */
  function Includes(s: string, k: string): bool
    decreases |s|
  {
    if |s| < |k| then false
    else if s[..|k|] == k then true
    else Includes(s[1..], k)
  }

  /** The scan finds `k` exactly when `k` is a substring of `s`. */
  lemma {:induction false} IncludesIffOccurs(s: string, k: string)
    ensures Includes(s, k) <==> exists i :: OccursAt(s, k, i)
    decreases |s|
  {
    if |s| < |k| {
    } else if s[..|k|] == k {
      assert OccursAt(s, k, 0);
    } else {
      IncludesIffOccurs(s[1..], k);
      if Includes(s[1..], k) {
        var i :| OccursAt(s[1..], k, i);
        assert s[1..][i..i + |k|] == s[i + 1..i + 1 + |k|];
        assert OccursAt(s, k, i + 1);
      } else {
        forall i | OccursAt(s, k, i) ensures false {
          assert i != 0;
          assert s[1..][i - 1..i - 1 + |k|] == s[i..i + |k|];
          assert OccursAt(s[1..], k, i - 1);
        }
      }
    }
  }

  /** `targets` of applyStyleObject: the keywords that select each role's layers. */
  function Keywords(r: Role): seq<string> {
    match r
    case Water => ["water", "ocean", "lake", "river"]
    case Land => ["land", "background", "landcover", "grass", "park"]
    case Roads => ["road", "highway", "street", "motorway"]
    case Buildings => ["building", "structure"]
    case Labels => ["label", "place", "poi", "admin"]
  }

  /** Every keyword is non-empty and already lower case, so it can match a lowercased name. */
  lemma KeywordsLowerCase(r: Role)
    ensures Keywords(r) != []
    ensures forall k :: k in Keywords(r) ==> k != "" && ToLower(k) == k
  {
    forall k | k in Keywords(r) ensures k != "" && ToLower(k) == k {
      match r {
        case Water => case Land => case Roads => case Buildings => case Labels =>
      }
      LowerFixed(k);
    }
  }

  /** A string with no upper-case ASCII letter is its own lower case. */
  lemma LowerFixed(s: string)
    requires forall i :: 0 <= i < |s| ==> !('A' <= s[i] <= 'Z')
    ensures ToLower(s) == s
  {
  }

  /**
    The filter test of findLayersByKeyword: the lowercased id or lowercased
    source-layer (missing reads as "") contains one of the keywords.
  */
  predicate Matches(l: Layer, keywords: seq<string>) {
    var id := ToLower(l.id);
    var src := ToLower(l.sourceLayer.GetOr(""));
    exists k :: k in keywords && (Includes(id, k) || Includes(src, k))
  }

  /** `layers.filter(...)`: the layers that match, in their original order. */
  function MatchingLayers(ls: seq<Layer>, keywords: seq<string>): (r: seq<Layer>)
    ensures |r| <= |ls|
    ensures forall l :: l in r <==> l in ls && Matches(l, keywords)
  {
    if ls == [] then []
    else (if Matches(ls[0], keywords) then [ls[0]] else []) + MatchingLayers(ls[1..], keywords)
  }

  /**
    The filter distributes over concatenation; with MatchingLayersSingle this
    fixes the result: each matching layer kept once, in place, nothing added.
  */
  lemma {:induction false} MatchingLayersAppend(a: seq<Layer>, b: seq<Layer>, keywords: seq<string>)
    ensures MatchingLayers(a + b, keywords) == MatchingLayers(a, keywords) + MatchingLayers(b, keywords)
  {
    if a == [] {
      assert a + b == b;
    } else {
      assert (a + b)[0] == a[0];
      assert (a + b)[1..] == a[1..] + b;
      MatchingLayersAppend(a[1..], b, keywords);
    }
  }

  lemma MatchingLayersSingle(l: Layer, keywords: seq<string>)
    ensures MatchingLayers([l], keywords) == if Matches(l, keywords) then [l] else []
  {
    assert [l][1..] == [];
  }

  /** No layer of `ls` is selected by `keywords`. */
  predicate NoneMatch(ls: seq<Layer>, keywords: seq<string>) {
    forall i :: 0 <= i < |ls| ==> !Matches(ls[i], keywords)
  }

  /** Matching reads the id and source-layer only, never the paint. */
  lemma MatchesIgnoresPaint(l: Layer, p: map<string, string>, keywords: seq<string>)
    ensures Matches(l.(paint := p), keywords) == Matches(l, keywords)
  {
  }

  /** The filter comes back empty exactly when no layer matches. */
  lemma MatchingNoneIff(ls: seq<Layer>, keywords: seq<string>)
    ensures MatchingLayers(ls, keywords) == [] <==> NoneMatch(ls, keywords)
  {
    if MatchingLayers(ls, keywords) != [] {
      assert MatchingLayers(ls, keywords)[0] in MatchingLayers(ls, keywords);
    }
  }

  /** Filtering keeps ids unique, so no layer is visited twice in one role's pass. */
  lemma {:induction false} MatchingLayersUniqueIds(ls: seq<Layer>, keywords: seq<string>)
    requires UniqueIds(ls)
    ensures UniqueIds(MatchingLayers(ls, keywords))
  {
    if ls != [] {
      var rest := MatchingLayers(ls[1..], keywords);
      MatchingLayersUniqueIds(ls[1..], keywords);
      forall l | l in rest ensures l.id != ls[0].id {
        var j :| 0 <= j < |ls[1..]| && ls[1..][j] == l;
        assert ls[j + 1] == l;
      }
    }
  }

  /** A keyword found at a known position of the lowercased id selects the layer. */
  lemma MatchedById(l: Layer, keywords: seq<string>, k: string, i: int)
    requires k in keywords && OccursAt(ToLower(l.id), k, i)
    ensures Matches(l, keywords)
  {
    IncludesIffOccurs(ToLower(l.id), k);
  }

  /** A layer named `park_label` is selected by both the land and the labels keywords. */
  lemma ParkLabelMatchesTwoRoles()
    ensures Matches(Layer("park_label", Symbol, None, map[]), Keywords(Land))
    ensures Matches(Layer("park_label", Symbol, None, map[]), Keywords(Labels))
  {
    var l := Layer("park_label", Symbol, None, map[]);
    var id := ToLower(l.id);
    assert id == "park_label";
    assert OccursAt(id, "park", 0);
    MatchedById(l, Keywords(Land), "park", 0);
    assert OccursAt(id, "label", 5);
    MatchedById(l, Keywords(Labels), "label", 5);
  }
}
