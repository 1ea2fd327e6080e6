/** What a client fills into a pattern, the router reads back: exactly when. */
module RouterLabels {
  import opened Common
  import opened UriSpec
  import opened UriProps
  import opened RouterSpec

  // ----- filling a pattern -----

  /** Values stand beside the segments; a literal's value is not used. */
  function FilledSegment(seg: Segment, value: Bytes): Bytes {
    match seg.kind
    case Literal => seg.text
    case Label => Encode(value, false)
    case Greedy => Encode(value, true)
  }

  function FilledSegments(p: seq<Segment>, vs: seq<Bytes>): seq<Bytes>
    requires |p| == |vs|
  {
    if p == [] then [] else [FilledSegment(p[0], vs[0])] + FilledSegments(p[1..], vs[1..])
  }

  function FilledTarget(p: seq<Segment>, vs: seq<Bytes>, query: seq<Param>): Bytes
    requires |p| == |vs|
  {
    [SLASH] + Join(FilledSegments(p, vs), SLASH) + QueryText(query)
  }

  /** The literals need no escapes. */
  predicate PlainLiterals(p: seq<Segment>) {
    forall k | 0 <= k < |p| && p[k].kind.Literal? :: forall i | 0 <= i < |p[k].text| :: Unreserved(p[k].text[i])
  }

  predicate DistinctNames(p: seq<Segment>) {
    forall j, k | 0 <= j < k < |p| && !p[j].kind.Literal? && !p[k].kind.Literal? :: p[j].text != p[k].text
  }

  predicate Fillable(p: seq<Segment>, vs: seq<Bytes>)
    requires |p| == |vs|
  {
    forall k | 0 <= k < |p| && !p[k].kind.Literal? ::
      vs[k] != [] && (p[k].kind.Greedy? ==> vs[k][|vs[k]| - 1] != SLASH)
  }

  /** Every name has the value that was filled in for it, and there are no other names. */
  ghost predicate Recovers(labels: Labels, p: seq<Segment>, vs: seq<Bytes>)
    requires |p| == |vs|
  {
    (forall k | 0 <= k < |p| && !p[k].kind.Literal? :: p[k].text in labels && labels[p[k].text] == vs[k]) &&
    forall name | name in labels :: exists k :: 0 <= k < |p| && !p[k].kind.Literal? && p[k].text == name
  }

  // ----- the segments a filled target has -----

  /** Segments, with tail in the place of the greedy label. */
  function Flat(p: seq<Segment>, vs: seq<Bytes>, tail: seq<Bytes>): seq<Bytes>
    requires |p| == |vs|
  {
    if p == [] then []
    else
      (match p[0].kind case Literal => [p[0].text] case Label => [vs[0]] case Greedy => tail) + Flat(p[1..], vs[1..], tail)
  }

  function GreedyValue(p: seq<Segment>, vs: seq<Bytes>): Bytes
    requires |p| == |vs|
  {
    if EndsGreedy(p) then vs[|vs| - 1] else []
  }

  function EncodeParts(parts: seq<Bytes>): seq<Bytes> {
    if parts == [] then [] else [Encode(parts[0], false)] + EncodeParts(parts[1..])
  }

  lemma {:induction false} EncodeFree(s: Bytes)
    requires Free(s, SLASH)
    ensures Encode(s, true) == Encode(s, false)
  {
    if s != [] {
      EncodeFree(s[1..]);
    }
  }

  lemma {:induction false} EncodePlain(s: Bytes, keepSlash: bool)
    requires forall i | 0 <= i < |s| :: Unreserved(s[i])
    ensures Encode(s, keepSlash) == s
  {
    if s != [] {
      EncodePlain(s[1..], keepSlash);
    }
  }

  /** Escaping a greedy value escapes its parts. */
  lemma {:induction false} EncodeJoin(parts: seq<Bytes>)
    requires AllFree(parts, SLASH)
    ensures Encode(Join(parts, SLASH), true) == Join(EncodeParts(parts), SLASH) && AllFree(EncodeParts(parts), SLASH)
    ensures |EncodeParts(parts)| == |parts|
    decreases |parts|
  {
    if parts != [] {
      EncodeFree(parts[0]);
      EncodeCoded(parts[0], false);
      CodedFree(Encode(parts[0], false));
      EncodeJoin(parts[1..]);
      assert EncodeParts(parts)[1..] == EncodeParts(parts[1..]);
      if |parts| > 1 {
        var rest := Join(parts[1..], SLASH);
        EncodeBoth(parts[0] + [SLASH], rest, true);
        EncodeBoth(parts[0], [SLASH], true);
        assert Encode([SLASH], true) == [SLASH] + Encode([], true) == [SLASH];
      }
    }
  }

  lemma {:induction false} DecodeParts(parts: seq<Bytes>)
    ensures DecodeAll(EncodeParts(parts)) == Ok(parts)
  {
    hide Encode, PercentDecode;
    if parts != [] {
      DecodeParts(parts[1..]);
      DecodeEncode(parts[0], false);
      assert EncodeParts(parts)[1..] == EncodeParts(parts[1..]);
      assert parts == [parts[0]] + parts[1..];
    }
  }

  /** All but the last of the filled segments have no slash, and escape what they stand for. */
  lemma {:induction false} FilledFlat(p: seq<Segment>, vs: seq<Bytes>)
    requires |p| == |vs| && Legal(p) && PlainLiterals(p) && p != []
    ensures var tail := Split(GreedyValue(p, vs), SLASH);
            Join(FilledSegments(p, vs), SLASH) == Join(EncodeParts(Flat(p, vs, tail)), SLASH) &&
            AllFree(EncodeParts(Flat(p, vs, tail)), SLASH) && Flat(p, vs, tail) != []
    decreases |p|
  {
    hide Encode, Split;
    var tail := Split(GreedyValue(p, vs), SLASH);
    var flat := Flat(p, vs, tail);
    if |p| == 1 {
      assert Flat(p[1..], vs[1..], tail) == [] && FilledSegments(p[1..], vs[1..]) == [];
      LastFlat(p[0], vs[0]);
      var own: seq<Bytes> := match p[0].kind case Literal => [p[0].text] case Label => [vs[0]] case Greedy => tail;
      assert flat == own && FilledSegments(p, vs) == [FilledSegment(p[0], vs[0])];
    } else {
      FilledFlat(p[1..], vs[1..]);
      var rest := Flat(p[1..], vs[1..], tail);
      assert flat[1..] == rest && EncodeParts(flat)[1..] == EncodeParts(rest);
      EncodedSize(rest);
      SegmentEncodes(p[0], vs[0]);
      assert FilledSegments(p, vs)[1..] == FilledSegments(p[1..], vs[1..]);
    }
  }

  lemma {:induction false} EncodedSize(parts: seq<Bytes>)
    ensures |EncodeParts(parts)| == |parts|
  {
    if parts != [] {
      EncodedSize(parts[1..]);
    }
  }

  lemma SegmentEncodes(seg: Segment, v: Bytes)
    requires !seg.kind.Greedy? && PlainLiterals([seg])
    ensures var s := if seg.kind.Literal? then seg.text else v;
            FilledSegment(seg, v) == Encode(s, false) && Free(Encode(s, false), SLASH)
  {
    var s := if seg.kind.Literal? then seg.text else v;
    EncodeCoded(s, false);
    CodedFree(Encode(s, false));
    if seg.kind.Literal? {
      assert [seg][0].kind.Literal?;
      EncodePlain(seg.text, false);
    }
  }

  lemma LastFlat(seg: Segment, v: Bytes)
    requires PlainLiterals([seg])
    ensures var parts := match seg.kind case Literal => [seg.text] case Label => [v] case Greedy => Split(v, SLASH);
            FilledSegment(seg, v) == Join(EncodeParts(parts), SLASH) && AllFree(EncodeParts(parts), SLASH) && parts != []
  {
    hide Encode, Split;
    match seg.kind
    case Greedy =>
      JoinSplit(v, SLASH);
      EncodeJoin(Split(v, SLASH));
    case _ =>
      SegmentEncodes(seg, v);
      var s := if seg.kind.Literal? then seg.text else v;
      OneEncoded(s);
  }

  lemma OneEncoded(s: Bytes)
    ensures EncodeParts([s]) == [Encode(s, false)]
  {
    var none := [s][1..];
    assert none == [] && EncodeParts([s]) == [Encode(s, false)] + EncodeParts(none);
  }

  lemma {:induction false} JoinEmpty(parts: seq<Bytes>)
    requires Join(parts, SLASH) == [] && parts != []
    ensures parts == [[]]
  {
  }

  lemma PathBack(p: seq<Segment>, vs: seq<Bytes>)
    requires |p| == |vs| && Legal(p) && PlainLiterals(p)
    ensures var r := ParsePath(Join(FilledSegments(p, vs), SLASH));
            r.Ok? && Normalized(r.value) == Normalized(Flat(p, vs, Split(GreedyValue(p, vs), SLASH)))
  {
    hide Split, Encode, Join;
    if p != [] {
      FilledFlat(p, vs);
      var flat := Flat(p, vs, Split(GreedyValue(p, vs), SLASH));
      var parts := EncodeParts(flat);
      EncodedSize(flat);
      DecodeParts(flat);
      SplitJoin(parts, SLASH);
      if Join(parts, SLASH) == [] {
        JoinEmpty(parts);
        EncodeCoded(flat[0], false);
        assert flat == [flat[0]] && parts[0] == Encode(flat[0], false);
      }
    } else {
      NoParts();
    }
  }

  lemma NoParts()
    ensures Join([], SLASH) == []
  {
  }

  // ----- matching them -----

  predicate LabelsFilled(p: seq<Segment>, vs: seq<Bytes>)
    requires |p| == |vs|
  {
    forall k | 0 <= k < |p| && p[k].kind.Label? :: vs[k] != []
  }

  lemma {:induction false} FlatSize(p: seq<Segment>, vs: seq<Bytes>, tail: seq<Bytes>)
    requires |p| == |vs| && Legal(p)
    ensures |Flat(p, vs, tail)| == if EndsGreedy(p) then |p| - 1 + |tail| else |p|
    ensures p != [] ==> Flat(p, vs, tail) ==
                        Flat(p[..|p| - 1], vs[..|p| - 1], tail) +
                        (match p[|p| - 1].kind case Literal => [p[|p| - 1].text] case Label => [vs[|p| - 1]] case Greedy => tail)
    decreases |p|
  {
    if |p| == 1 {
      assert Flat(p[1..], vs[1..], tail) == [] && Flat(p[..0], vs[..0], tail) == [];
    } else if |p| > 1 {
      FlatSize(p[1..], vs[1..], tail);
      var n := |p| - 1;
      assert p[1..][..n - 1] == p[..n][1..] && vs[1..][..n - 1] == vs[..n][1..];
    }
  }

  /** Matching finds the labels that are there, under distinct names. */
  lemma {:induction false} MatchFlat(p: seq<Segment>, vs: seq<Bytes>, tail: seq<Bytes>)
    requires |p| == |vs| && Legal(p) && DistinctNames(p) && (EndsGreedy(p) ==> tail != [])
    ensures |p| <= |Flat(p, vs, tail)|
    ensures var r := MatchRest(p, Flat(p, vs, tail));
            (r.Some? <==> LabelsFilled(p, vs) && (EndsGreedy(p) ==> tail != [[]])) &&
            (r.Some? ==> Recovers(r.value, p, if EndsGreedy(p) then vs[..|p| - 1] + [Join(tail, SLASH)] else vs))
    decreases |p|
  {
    hide Join, Recovers, Flat, DistinctNames, LabelsFilled, MatchRest;
    FlatSize(p, vs, tail);
    if p == [] {
      MatchNothing(p, vs, tail);
    } else if p[0].kind.Greedy? {
      MatchGreedy(p, vs, tail);
    } else {
      FewerNames(p);
      MatchFlat(p[1..], vs[1..], tail);
      MatchFirst(p, vs, tail);
      FilledFirst(p, vs);
      if MatchRest(p, Flat(p, vs, tail)).Some? {
        var ws := if EndsGreedy(p) then vs[..|p| - 1] + [Join(tail, SLASH)] else vs;
        assert ws[1..] == if EndsGreedy(p) then vs[1..][..|p| - 2] + [Join(tail, SLASH)] else vs[1..];
        RecoversFirst(MatchRest(p[1..], Flat(p[1..], vs[1..], tail)).value, MatchRest(p, Flat(p, vs, tail)).value, p, ws);
      }
    }
  }

  lemma FewerNames(p: seq<Segment>)
    requires p != [] && DistinctNames(p) && Legal(p) && !p[0].kind.Greedy?
    ensures DistinctNames(p[1..]) && Legal(p[1..]) && EndsGreedy(p) == EndsGreedy(p[1..])
  {
  }

  lemma MatchNothing(p: seq<Segment>, vs: seq<Bytes>, tail: seq<Bytes>)
    requires p == [] && vs == []
    ensures MatchRest(p, Flat(p, vs, tail)) == Some(map[]) && LabelsFilled(p, vs) && Recovers(map[], p, vs)
  {
  }

  lemma MatchGreedy(p: seq<Segment>, vs: seq<Bytes>, tail: seq<Bytes>)
    requires |p| == |vs| && p != [] && Legal(p) && p[0].kind.Greedy? && tail != []
    ensures |p| == 1 && Flat(p, vs, tail) == tail && LabelsFilled(p, vs)
    ensures MatchRest(p, tail).Some? <==> tail != [[]]
    ensures tail != [[]] ==> Recovers(MatchRest(p, tail).value, p, vs[..|p| - 1] + [Join(tail, SLASH)])
  {
    hide Join;
    assert |p| == 1 && Flat(p[1..], vs[1..], tail) == [];
    assert vs[..0] + [Join(tail, SLASH)] == [Join(tail, SLASH)];
    assert |tail| == 1 && tail[0] == [] <==> tail == [[]];
  }

  lemma MatchFirst(p: seq<Segment>, vs: seq<Bytes>, tail: seq<Bytes>)
    requires |p| == |vs| && p != [] && !p[0].kind.Greedy? && |p[1..]| <= |Flat(p[1..], vs[1..], tail)|
    ensures |p| <= |Flat(p, vs, tail)|
    ensures var rest := MatchRest(p[1..], Flat(p[1..], vs[1..], tail));
            MatchRest(p, Flat(p, vs, tail)) ==
            if rest.None? || (p[0].kind.Label? && vs[0] == []) then None
            else if p[0].kind.Literal? then rest
            else Some(rest.value + map[p[0].text := vs[0]])
  {
    var first := if p[0].kind.Literal? then p[0].text else vs[0];
    assert Flat(p, vs, tail) == [first] + Flat(p[1..], vs[1..], tail);
    assert Flat(p, vs, tail)[1..] == Flat(p[1..], vs[1..], tail);
  }

  lemma FilledFirst(p: seq<Segment>, vs: seq<Bytes>)
    requires |p| == |vs| && p != []
    ensures LabelsFilled(p, vs) <==> (p[0].kind.Label? ==> vs[0] != []) && LabelsFilled(p[1..], vs[1..])
    ensures |p| > 1 ==> (EndsGreedy(p) <==> EndsGreedy(p[1..]))
  {
    if LabelsFilled(p[1..], vs[1..]) {
      forall k | 1 <= k < |p| && p[k].kind.Label?
        ensures vs[k] != []
      {
        assert p[1..][k - 1].kind.Label?;
      }
    }
  }

  lemma RecoversFirst(rest: Labels, labels: Labels, p: seq<Segment>, vs: seq<Bytes>)
    requires p != [] && |p| == |vs| && DistinctNames(p) && !p[0].kind.Greedy? && Recovers(rest, p[1..], vs[1..])
    requires labels == if p[0].kind.Literal? then rest else rest + map[p[0].text := vs[0]]
    ensures Recovers(labels, p, vs)
  {
    forall k | 0 <= k < |p| && !p[k].kind.Literal?
      ensures p[k].text in labels && labels[p[k].text] == vs[k]
    {
      if k > 0 {
        assert !p[1..][k - 1].kind.Literal?;
      }
    }
    forall name | name in labels
      ensures exists k :: 0 <= k < |p| && !p[k].kind.Literal? && p[k].text == name
    {
      if name in rest {
        var k :| 0 <= k < |p[1..]| && !p[1..][k].kind.Literal? && p[1..][k].text == name;
        assert !p[k + 1].kind.Literal? && p[k + 1].text == name;
      } else {
        assert !p[0].kind.Literal? && p[0].text == name;
      }
    }
  }

  /** What the match gives back, and when it is what was filled in. */
  ghost predicate Returns(p: seq<Segment>, s: seq<Bytes>, vs: seq<Bytes>)
    requires |p| == |vs|
  {
    MatchSegments(p, s).Some? && Recovers(MatchSegments(p, s).value, p, vs)
  }

  lemma {:induction false} DropLast(parts: seq<Bytes>, sep: Byte)
    requires |parts| > 1 && parts[|parts| - 1] == []
    ensures Join(parts, sep) == Join(parts[..|parts| - 1], sep) + [sep]
    decreases |parts|
  {
    var n := |parts| - 1;
    if n > 1 {
      DropLast(parts[1..], sep);
      assert parts[..n][1..] == parts[1..][..n - 1];
    } else {
      assert parts[1..] == [[]] && parts[..1] == [parts[0]];
    }
  }

  lemma {:induction false} SplitEnd(s: Bytes, sep: Byte)
    ensures var parts := Split(s, sep);
            parts[|parts| - 1] == [] <==> s == [] || s[|s| - 1] == sep
    decreases |s|
  {
    hide Find;
    FreeHasNone(s, sep);
    match Find(s, [sep])
    case None =>
    case Some(k) => SplitEnd(s[k + 1..], sep);
  }

  /** A pattern without a greedy label. */
  lemma PlainReturns(p: seq<Segment>, vs: seq<Bytes>)
    requires |p| == |vs| && Legal(p) && DistinctNames(p) && !EndsGreedy(p)
    ensures Returns(p, Normalized(Flat(p, vs, [[]])), vs) <==> Fillable(p, vs)
  {
    hide MatchRest;
    var flat := Flat(p, vs, [[]]);
    FlatSize(p, vs, [[]]);
    MatchFlat(p, vs, [[]]);
    assert p != [] ==> flat[|flat| - 1] == if p[|p| - 1].kind.Literal? then p[|p| - 1].text else vs[|p| - 1];
  }

  lemma GreedyReturns(p: seq<Segment>, vs: seq<Bytes>)
    requires |p| == |vs| && Legal(p) && DistinctNames(p) && EndsGreedy(p)
    ensures Returns(p, Normalized(Flat(p, vs, Split(vs[|vs| - 1], SLASH))), vs) <==> Fillable(p, vs)
  {
    hide MatchRest, Split, Recovers, Returns, Flat, Fillable, Normalized, DistinctNames, Legal;
    var value := vs[|p| - 1];
    JoinSplit(value, SLASH);
    SplitEnd(value, SLASH);
    var tail := Split(value, SLASH);
    if tail[|tail| - 1] != [] {
      WholeTail(p, vs, tail);
    } else if |tail| == 1 {
      NoTail(p, vs, tail);
    } else {
      ShorterTail(p, vs, tail);
    }
  }

  /** A greedy value that does not end in a slash keeps all its parts. */
  lemma WholeTail(p: seq<Segment>, vs: seq<Bytes>, tail: seq<Bytes>)
    requires |p| == |vs| && Legal(p) && DistinctNames(p) && EndsGreedy(p) && tail != [] && tail[|tail| - 1] != []
    requires Join(tail, SLASH) == vs[|p| - 1] && vs[|p| - 1] != [] && vs[|p| - 1][|vs[|p| - 1]| - 1] != SLASH
    ensures Returns(p, Normalized(Flat(p, vs, tail)), vs) <==> Fillable(p, vs)
  {
    hide MatchRest, Recovers, Fillable, DistinctNames;
    FlatSize(p, vs, tail);
    MatchFlat(p, vs, tail);
    assert vs[..|p| - 1] + [Join(tail, SLASH)] == vs;
    NotEmptyText(tail, vs[|p| - 1]);
    FillableFilled(p, vs);
  }

  /** An empty one leaves too few segments. */
  lemma NoTail(p: seq<Segment>, vs: seq<Bytes>, tail: seq<Bytes>)
    requires |p| == |vs| && Legal(p) && EndsGreedy(p) && tail == [[]] && Join(tail, SLASH) == vs[|p| - 1]
    ensures !Returns(p, Normalized(Flat(p, vs, tail)), vs) && !Fillable(p, vs)
  {
    hide MatchRest, Recovers;
    FlatSize(p, vs, tail);
    assert !p[|p| - 1].kind.Literal? && vs[|p| - 1] == [];
  }

  /** One that ends in a slash comes back without it. */
  lemma ShorterTail(p: seq<Segment>, vs: seq<Bytes>, tail: seq<Bytes>)
    requires |p| == |vs| && Legal(p) && DistinctNames(p) && EndsGreedy(p) && |tail| > 1 && tail[|tail| - 1] == []
    requires Join(tail, SLASH) == vs[|p| - 1]
    ensures !Returns(p, Normalized(Flat(p, vs, tail)), vs) && !Fillable(p, vs)
  {
    hide MatchRest, Recovers, DistinctNames, Returns, Normalized, Flat, Join, MatchSegments, Legal;
    var n := |p| - 1;
    var kept := tail[..|tail| - 1];
    DropLast(tail, SLASH);
    ShorterFlat(p, vs, tail);
    MatchShorter(p, vs, kept);
    LastDiffers(p, vs, vs[..n] + [Join(kept, SLASH)], Flat(p, vs, kept));
    assert !p[n].kind.Literal? && vs[n][|vs[n]| - 1] == SLASH;
  }

  lemma ShorterFlat(p: seq<Segment>, vs: seq<Bytes>, tail: seq<Bytes>)
    requires |p| == |vs| && Legal(p) && EndsGreedy(p) && tail != [] && tail[|tail| - 1] == []
    ensures Normalized(Flat(p, vs, tail)) == Flat(p, vs, tail[..|tail| - 1])
  {
    hide Flat, Legal, Normalized;
    FlatSize(p, vs, tail);
    FlatSize(p, vs, tail[..|tail| - 1]);
    var n := |p| - 1;
    GreedyLast(p, p[..n]);
    SameFlat(p[..n], vs[..n], tail, tail[..|tail| - 1]);
    DropEmpty(Flat(p[..n], vs[..n], tail), tail);
  }

  lemma GreedyLast(p: seq<Segment>, before: seq<Segment>)
    requires Legal(p) && p != [] && before == p[..|p| - 1]
    ensures forall k | 0 <= k < |before| :: !before[k].kind.Greedy?
  {
  }

  lemma DropEmpty(before: seq<Bytes>, tail: seq<Bytes>)
    requires tail != [] && tail[|tail| - 1] == []
    ensures Normalized(before + tail) == before + tail[..|tail| - 1]
  {
  }

  lemma {:induction false} SameFlat(p: seq<Segment>, vs: seq<Bytes>, tail: seq<Bytes>, other: seq<Bytes>)
    requires |p| == |vs| && forall k | 0 <= k < |p| :: !p[k].kind.Greedy?
    ensures Flat(p, vs, tail) == Flat(p, vs, other)
    decreases |p|
  {
    if p != [] {
      SameFlat(p[1..], vs[1..], tail, other);
    }
  }

  lemma MatchShorter(p: seq<Segment>, vs: seq<Bytes>, kept: seq<Bytes>)
    requires |p| == |vs| && Legal(p) && DistinctNames(p) && EndsGreedy(p) && kept != []
    ensures var r := MatchSegments(p, Flat(p, vs, kept));
            r.Some? ==> Recovers(r.value, p, vs[..|p| - 1] + [Join(kept, SLASH)])
  {
    hide MatchRest, Recovers, DistinctNames, Flat, Join, Legal;
    MatchFlat(p, vs, kept);
  }

  lemma NotEmptyText(tail: seq<Bytes>, value: Bytes)
    requires Join(tail, SLASH) == value && value != []
    ensures tail != [[]]
  {
  }

  lemma FillableFilled(p: seq<Segment>, vs: seq<Bytes>)
    requires |p| == |vs| && Legal(p) && EndsGreedy(p) && vs[|p| - 1] != [] && vs[|p| - 1][|vs[|p| - 1]| - 1] != SLASH
    ensures Fillable(p, vs) <==> LabelsFilled(p, vs)
  {
  }

  lemma LastDiffers(p: seq<Segment>, vs: seq<Bytes>, ws: seq<Bytes>, s: seq<Bytes>)
    requires |p| == |vs| == |ws| && EndsGreedy(p) && ws[|p| - 1] != vs[|p| - 1]
    requires MatchSegments(p, s).Some? ==> Recovers(MatchSegments(p, s).value, p, ws)
    ensures !Returns(p, s, vs)
  {
    hide MatchSegments;
    var n := |p| - 1;
    assert !p[n].kind.Literal?;
  }

  /** The target a client fills in for a pattern is read back by matching that pattern, query included,
      exactly when no label is empty and a greedy one does not end in a slash. */
  lemma {:induction false} LabelsComeBack(p: seq<Segment>, vs: seq<Bytes>, query: seq<Param>)
    requires |p| == |vs| && Legal(p) && PlainLiterals(p) && DistinctNames(p)
    ensures var t := ParseTarget(FilledTarget(p, vs, query));
            t.Ok? && t.value.query == Decoded(query) && (Returns(p, Normalized(t.value.segments), vs) <==> Fillable(p, vs))
  {
    hide ParsePath, Returns, Fillable, Flat, Join, Split;
    PathBack(p, vs);
    PathFree(p, vs);
    TargetBack(Join(FilledSegments(p, vs), SLASH), query);
    if EndsGreedy(p) {
      GreedyReturns(p, vs);
    } else {
      EmptySplit();
      PlainReturns(p, vs);
    }
  }

  lemma EmptySplit()
    ensures Split([], SLASH) == [[]]
  {
    FreeHasNone([], SLASH);
  }

  /** A path has no question mark. */
  lemma {:induction false} PathFree(p: seq<Segment>, vs: seq<Bytes>)
    requires |p| == |vs| && PlainLiterals(p)
    ensures Free(Join(FilledSegments(p, vs), SLASH), QUESTION)
    decreases |p|
  {
    hide Encode;
    if p != [] {
      EncodeCoded(vs[0], false);
      EncodeCoded(vs[0], true);
      assert Free(FilledSegment(p[0], vs[0]), QUESTION);
      PathFree(p[1..], vs[1..]);
      assert FilledSegments(p, vs)[1..] == FilledSegments(p[1..], vs[1..]);
    }
  }
}
