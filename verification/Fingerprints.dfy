/** Reproducibility of a return, and what its inputs_hash and result_hash pin down (compliance/engine.py). */
module Fingerprints {
  import opened Wrappers
  import opened Pack
  import opened Derivation
  import opened Engine
  import opened StringOrder
  import opened CanonicalJson
  import opened AuditChain
  import opened Sequences

  // ---------------------------------------------------------------- the same rows give the same return

  lemma {:induction false} AscendingSetUnique(xs: seq<string>)
    requires StrictlyAscending(xs)
    ensures Ascending(xs, Itself) && forall x :: multiset(xs)[x] == if x in xs then 1 else 0
  {
    hide Le, UpTo;
    forall i, j | 0 <= i < j < |xs|
      ensures Le(xs[i], xs[j])
    {
      LeIsCodePointOrder(xs[i], xs[j]);
    }
    if xs != [] {
      AscendingSetUnique(xs[1..]);
      assert xs == [xs[0]] + xs[1..];
      assert xs[0] !in xs[1..];
    }
  }

  /** Two strictly ascending lists of the same codes are the same list. */
  lemma SameCodesSameList(xs: seq<string>, ys: seq<string>)
    requires StrictlyAscending(xs) && StrictlyAscending(ys) && forall c :: c in xs <==> c in ys
    ensures xs == ys
  {
    hide Ascending, StrictlyAscending;
    AscendingSetUnique(xs);
    AscendingSetUnique(ys);
    assert multiset(xs) == multiset(ys);
    AscendingUnique(xs, ys, Itself);
  }

  lemma SameMembersOf(xs: seq<Txn>, ys: seq<Txn>)
    requires multiset(xs) == multiset(ys)
    ensures forall t :: t in xs <==> t in ys
  {
    forall t
      ensures t in xs <==> t in ys
    {
      SameMembers(xs, ys, t);
    }
  }

  /** Whatever order the rows are fetched in, the same rows with distinct ids give the same return: every
      box, the whole lineage and the list of unmapped codes. */
  lemma Reproducible(pack: RulePack, xs: seq<Txn>, ys: seq<Txn>, values1: Totals, values2: Totals,
                     r1: ComputationResult, r2: ComputationResult)
    requires multiset(xs) == multiset(ys) && KeyDetermines(xs, RowId)
    requires Derive(pack.boxes, pack.derivationOrder, PrimaryTotals(pack, xs)) == Ok(values1)
    requires Derive(pack.boxes, pack.derivationOrder, PrimaryTotals(pack, ys)) == Ok(values2)
    requires Reports(pack, xs, values1, r1) && Reports(pack, ys, values2, r2)
    ensures r1 == r2
  {
    hide Derive, PrimaryTotals, Lineage, SortBy, StrictlyAscending, KeyDetermines, ContributionsFor;
    TotalsPermute(pack, xs, ys);
    LineagePermutes(pack, xs, ys);
    SameMembersOf(xs, ys);
    assert UnmappedCodes(pack, xs) == UnmappedCodes(pack, ys);
    SameCodesSameList(r1.unmappedCodes, r2.unmappedCodes);
    assert r1.boxes == r2.boxes;
  }

  // ---------------------------------------------------------------- the inputs hash

  function Texts(rows: seq<string>): (items: seq<Json>)
    ensures |items| == |rows| && forall i | 0 <= i < |rows| :: items[i] == Str(rows[i])
  {
    if rows == [] then [] else [Str(rows[0])] + Texts(rows[1..])
  }

  /** The hashed inputs: the pack and the texts of the rows, sorted. */
  function InputsPayload(packRef: string, packHash: string, rows: seq<string>): Json {
    Obj([Field("pack", Str(packRef)), Field("pack_hash", Str(packHash)), Field("rows", Arr(Texts(SortBy(rows, Itself))))])
  }

  function InputsHash(H: HashFunction, packRef: string, packHash: string, rows: seq<string>): string {
    H(Canonical(InputsPayload(packRef, packHash, rows)))
  }

  lemma TextsSame(xs: seq<string>, ys: seq<string>)
    ensures SameUpToKeyOrder(Arr(Texts(xs)), Arr(Texts(ys))) <==> xs == ys
  {
    forall i | 0 <= i < |xs| && i < |ys|
      ensures SameUpToKeyOrder(Texts(xs)[i], Texts(ys)[i]) <==> xs[i] == ys[i]
    {
      StringsSame(xs[i], ys[i]);
    }
  }

  lemma SortedSame(xs: seq<string>, ys: seq<string>)
    ensures SortBy(xs, Itself) == SortBy(ys, Itself) <==> multiset(xs) == multiset(ys)
  {
    SortByFacts(xs, Itself);
    SortByFacts(ys, Itself);
    if multiset(xs) == multiset(ys) {
      SortByPermutation(xs, ys, Itself);
    }
  }

  lemma InputsKeys(packRef: string, packHash: string, rows: seq<string>)
    ensures var p := InputsPayload(packRef, packHash, rows); UniqueKeys(p.fields) && Dictionary(p)
  {
    var fs := InputsPayload(packRef, packHash, rows).fields;
    assert |fs[0].key| == 4 && |fs[1].key| == 9 && |fs[2].key| == 4 && fs[0].key[0] == 'p' && fs[2].key[0] == 'r';
    assert forall x | x in Texts(SortBy(rows, Itself)) :: x.Str?;
  }

  lemma ThreeValues(fs: seq<Field>, gs: seq<Field>)
    requires |fs| == |gs| == 3
    ensures ValuesSame(fs, gs)
       <==> && SameUpToKeyOrder(fs[0].value, gs[0].value) && SameUpToKeyOrder(fs[1].value, gs[1].value)
            && SameUpToKeyOrder(fs[2].value, gs[2].value)
  {
    hide SameUpToKeyOrder;
  }

  /** The hashed text of the inputs is the same exactly for the same pack and the same row texts, in
      whatever order the rows are fetched. */
  lemma InputsTextDetermines(ref1: string, hash1: string, rows1: seq<string>, ref2: string, hash2: string, rows2: seq<string>)
    ensures Canonical(InputsPayload(ref1, hash1, rows1)) == Canonical(InputsPayload(ref2, hash2, rows2))
       <==> ref1 == ref2 && hash1 == hash2 && multiset(rows1) == multiset(rows2)
  {
    hide Canonical, Dictionary, SameUpToKeyOrder, UniqueKeys, ValuesSame, SortBy;
    var a, b := InputsPayload(ref1, hash1, rows1), InputsPayload(ref2, hash2, rows2);
    InputsKeys(ref1, hash1, rows1);
    InputsKeys(ref2, hash2, rows2);
    PrintAlike(a, b);
    AlignedFieldsSame(a.fields, b.fields);
    ThreeValues(a.fields, b.fields);
    StringsSame(ref1, ref2);
    StringsSame(hash1, hash2);
    TextsSame(SortBy(rows1, Itself), SortBy(rows2, Itself));
    SortedSame(rows1, rows2);
  }

  /** With a hash that does not collide on the two texts, equal inputs hashes mean equal row texts. */
  lemma SameInputsHash(H: HashFunction, ref1: string, hash1: string, rows1: seq<string>,
                       ref2: string, hash2: string, rows2: seq<string>)
    requires CollisionFree(H, {Canonical(InputsPayload(ref1, hash1, rows1)), Canonical(InputsPayload(ref2, hash2, rows2))})
    ensures InputsHash(H, ref1, hash1, rows1) == InputsHash(H, ref2, hash2, rows2)
       <==> ref1 == ref2 && hash1 == hash2 && multiset(rows1) == multiset(rows2)
  {
    hide Canonical, InputsPayload;
    InputsTextDetermines(ref1, hash1, rows1, ref2, hash2, rows2);
  }

  // ---------------------------------------------------------------- how a row is written

  function DirectionText(d: Direction): string {
    if d == AP then "AP" else "AR"
  }

  /** A transaction as it enters the inputs hash: five fields between bars. How an amount is written is a
      parameter. */
  function RowText(t: Txn, show: real -> string): string {
    t.rowId + "|" + (DirectionText(t.direction) + "|" + (t.vatCode + "|" + (show(t.net) + "|" + show(t.vat))))
  }

  /** Its fields, in the order of the format: row, direction, code, net and VAT. */
  lemma RowTextFields(t: Txn, show: real -> string)
    ensures t.direction == AR ==> RowText(t, show) == t.rowId + "|AR|" + t.vatCode + "|" + show(t.net) + "|" + show(t.vat)
    ensures t.direction == AP ==> RowText(t, show) == t.rowId + "|AP|" + t.vatCode + "|" + show(t.net) + "|" + show(t.vat)
  {
    assert "|" + "AR" + "|" == "|AR|" && "|" + "AP" + "|" == "|AP|";
  }

  function RowTexts(txns: seq<Txn>, show: real -> string): seq<string> {
    if txns == [] then [] else [RowText(txns[0], show)] + RowTexts(txns[1..], show)
  }

  /** No field before the last holds a bar. */
  predicate Plain(t: Txn, show: real -> string) {
    '|' !in t.rowId && '|' !in t.vatCode && '|' !in show(t.net)
  }

  /** Different amounts of the two rows are written differently. */
  predicate TellsApart(show: real -> string, t: Txn, u: Txn) {
    (show(t.net) == show(u.net) ==> t.net == u.net) && (show(t.vat) == show(u.vat) ==> t.vat == u.vat)
  }

  ghost predicate Legible(show: real -> string, txns: seq<Txn>) {
    && (forall t | t in txns :: Plain(t, show))
    && (forall t, u | t in txns && u in txns :: TellsApart(show, t, u))
  }

  lemma BarComesAfter(p: string, x: string, q: string, y: string)
    requires '|' !in q && p + "|" + x == q + "|" + y
    ensures |q| <= |p|
  {
    var s := p + "|" + x;
    assert s[|p|] == '|';
    forall k | 0 <= k < |q|
      ensures s[k] != '|'
    {
      assert s[k] == q[k] && q[k] in q;
    }
  }

  lemma SplitAtBar(p: string, x: string, q: string, y: string)
    requires '|' !in p && '|' !in q && p + "|" + x == q + "|" + y
    ensures p == q && x == y
  {
    var s := p + "|" + x;
    BarComesAfter(p, x, q, y);
    BarComesAfter(q, y, p, x);
    assert s[..|p|] == p && s[..|q|] == q && s[|p| + 1..] == x && s[|q| + 1..] == y;
  }

  /** The text of a row determines the row. */
  lemma RowTextDetermines(t: Txn, u: Txn, show: real -> string)
    requires Plain(t, show) && Plain(u, show) && TellsApart(show, t, u)
    requires RowText(t, show) == RowText(u, show)
    ensures t == u
  {
    var vat1, vat2 := show(t.vat), show(u.vat);
    var net1, net2 := show(t.net) + "|" + vat1, show(u.net) + "|" + vat2;
    var code1, code2 := t.vatCode + "|" + net1, u.vatCode + "|" + net2;
    var d1, d2 := DirectionText(t.direction), DirectionText(u.direction);
    SplitAtBar(t.rowId, d1 + "|" + code1, u.rowId, d2 + "|" + code2);
    SplitAtBar(d1, code1, d2, code2);
    SplitAtBar(t.vatCode, net1, u.vatCode, net2);
    SplitAtBar(show(t.net), vat1, show(u.net), vat2);
    assert "AP"[1] != "AR"[1];
  }

  lemma {:induction false} TextCounts(txns: seq<Txn>, t: Txn, show: real -> string)
    requires Plain(t, show) && forall u | u in txns :: Plain(u, show) && TellsApart(show, u, t)
    ensures multiset(RowTexts(txns, show))[RowText(t, show)] == multiset(txns)[t]
  {
    hide RowText, Plain, TellsApart;
    if txns != [] {
      TextCounts(txns[1..], t, show);
      assert txns == [txns[0]] + txns[1..];
      if RowText(txns[0], show) == RowText(t, show) {
        RowTextDetermines(txns[0], t, show);
      }
    }
  }

  lemma {:induction false} TextsAreOfRows(txns: seq<Txn>, show: real -> string, s: string)
    ensures s in RowTexts(txns, show) <==> exists t :: t in txns && RowText(t, show) == s
  {
    hide RowText;
    if txns != [] {
      TextsAreOfRows(txns[1..], show, s);
      assert txns == [txns[0]] + txns[1..];
    }
  }

  /** The row texts are the same, counted, exactly for the same transactions, counted. */
  lemma SameTextsSameRows(xs: seq<Txn>, ys: seq<Txn>, show: real -> string)
    requires Legible(show, xs + ys)
    ensures multiset(RowTexts(xs, show)) == multiset(RowTexts(ys, show)) <==> multiset(xs) == multiset(ys)
  {
    hide RowText, Plain, TellsApart, RowTexts;
    assert forall t :: t in xs + ys <==> t in xs || t in ys;
    forall t | t in xs + ys
      ensures multiset(RowTexts(xs, show))[RowText(t, show)] == multiset(xs)[t]
      ensures multiset(RowTexts(ys, show))[RowText(t, show)] == multiset(ys)[t]
    {
      TextCounts(xs, t, show);
      TextCounts(ys, t, show);
    }
    if multiset(RowTexts(xs, show)) == multiset(RowTexts(ys, show)) {
      forall t
        ensures multiset(xs)[t] == multiset(ys)[t]
      {
        assert t !in xs + ys ==> t !in multiset(xs) && t !in multiset(ys);
      }
    }
    if multiset(xs) == multiset(ys) {
      forall s
        ensures multiset(RowTexts(xs, show))[s] == multiset(RowTexts(ys, show))[s]
      {
        TextsAreOfRows(xs, show, s);
        TextsAreOfRows(ys, show, s);
        assert s in RowTexts(xs, show) <==> s in multiset(RowTexts(xs, show));
        assert s in RowTexts(ys, show) <==> s in multiset(RowTexts(ys, show));
      }
    }
  }

  /** Equal inputs hashes mean the same pack and the same transactions, in whatever order they came: for
      fields without bars, amounts written differently when they differ, and no collision of the two texts. */
  lemma SameInputsHashSameRows(H: HashFunction, ref1: string, hash1: string, xs: seq<Txn>,
                               ref2: string, hash2: string, ys: seq<Txn>, show: real -> string)
    requires Legible(show, xs + ys)
    requires CollisionFree(H, {Canonical(InputsPayload(ref1, hash1, RowTexts(xs, show))),
                               Canonical(InputsPayload(ref2, hash2, RowTexts(ys, show)))})
    ensures InputsHash(H, ref1, hash1, RowTexts(xs, show)) == InputsHash(H, ref2, hash2, RowTexts(ys, show))
       <==> ref1 == ref2 && hash1 == hash2 && multiset(xs) == multiset(ys)
  {
    hide Canonical, InputsPayload, RowTexts, Legible;
    SameInputsHash(H, ref1, hash1, RowTexts(xs, show), ref2, hash2, RowTexts(ys, show));
    SameTextsSameRows(xs, ys, show);
  }

  // ---------------------------------------------------------------- the result hash

  /** The published figures as texts, one field per box in the order of the box ids. */
  function FigureFields(ids: seq<string>, figures: map<string, string>): (fs: seq<Field>)
    requires forall b | b in ids :: b in figures
    ensures |fs| == |ids| && forall i | 0 <= i < |ids| :: fs[i] == Field(ids[i], Str(figures[ids[i]]))
  {
    if ids == [] then [] else [Field(ids[0], Str(figures[ids[0]]))] + FigureFields(ids[1..], figures)
  }

  ghost predicate Lists(ids: seq<string>, figures: map<string, string>) {
    Distinct(ids) && forall b :: b in ids <==> b in figures
  }

  function ResultPayload(packRef: string, packHash: string, engine: string, ids: seq<string>, figures: map<string, string>): Json
    requires forall b | b in ids :: b in figures
  {
    Obj([Field("pack", Str(packRef)), Field("pack_hash", Str(packHash)), Field("engine", Str(engine)),
         Field("boxes", Obj(FigureFields(ids, figures)))])
  }

  lemma FigureFieldOf(ids: seq<string>, figures: map<string, string>, b: string)
    requires Lists(ids, figures) && b in figures
    ensures Field(b, Str(figures[b])) in FigureFields(ids, figures)
  {
    var i :| 0 <= i < |ids| && ids[i] == b;
    assert FigureFields(ids, figures)[i] == Field(b, Str(figures[b]));
  }

  /** Every matching pair of fields carries the same value. */
  ghost predicate PairsSame(fs: seq<Field>, gs: seq<Field>) {
    forall f, g | f in fs && g in gs && f.key == g.key :: f.value == g.value
  }

  lemma TextObjectsSame(fs: seq<Field>, gs: seq<Field>)
    requires (forall f | f in fs :: f.value.Str?) && forall g | g in gs :: g.value.Str?
    ensures SameUpToKeyOrder(Obj(fs), Obj(gs)) <==> SameKeys(fs, gs) && PairsSame(fs, gs)
  {
    hide SameKeys;
    forall f, g | f in fs && g in gs && f.key == g.key
      ensures SameUpToKeyOrder(f.value, g.value) <==> f.value == g.value
    {
      StringsSame(f.value.s, g.value.s);
    }
  }

  lemma FiguresSame(ids1: seq<string>, m1: map<string, string>, ids2: seq<string>, m2: map<string, string>)
    requires Lists(ids1, m1) && Lists(ids2, m2)
    ensures SameUpToKeyOrder(Obj(FigureFields(ids1, m1)), Obj(FigureFields(ids2, m2))) <==> m1 == m2
  {
    hide SameUpToKeyOrder, SameKeys, PairsSame, FigureFields;
    var fs, gs := FigureFields(ids1, m1), FigureFields(ids2, m2);
    TextObjectsSame(fs, gs);
    if SameKeys(fs, gs) && PairsSame(fs, gs) {
      forall b
        ensures b in m1 <==> b in m2
        ensures b in m1 && b in m2 ==> m1[b] == m2[b]
      {
        FiguresAt(ids1, m1, ids2, m2, b);
      }
    }
    if m1 == m2 {
      SameFigures(ids1, ids2, m1);
    }
  }

  lemma FiguresAt(ids1: seq<string>, m1: map<string, string>, ids2: seq<string>, m2: map<string, string>, b: string)
    requires Lists(ids1, m1) && Lists(ids2, m2)
    requires SameKeys(FigureFields(ids1, m1), FigureFields(ids2, m2))
    requires PairsSame(FigureFields(ids1, m1), FigureFields(ids2, m2))
    ensures b in m1 <==> b in m2
    ensures b in m1 && b in m2 ==> m1[b] == m2[b]
  {
    hide FigureFields;
    var fs, gs := FigureFields(ids1, m1), FigureFields(ids2, m2);
    if b in m1 {
      FigureFieldOf(ids1, m1, b);
      assert HasKey(gs, b);
    }
    if b in m2 {
      FigureFieldOf(ids2, m2, b);
      assert HasKey(fs, b);
    }
  }

  lemma SameFigures(ids1: seq<string>, ids2: seq<string>, m: map<string, string>)
    requires Lists(ids1, m) && Lists(ids2, m)
    ensures SameKeys(FigureFields(ids1, m), FigureFields(ids2, m))
    ensures PairsSame(FigureFields(ids1, m), FigureFields(ids2, m))
  {
    hide HasKey, FigureFields, Lists;
    FiguresKeys(ids1, ids2, m);
    FiguresKeys(ids2, ids1, m);
    FigureValues(ids1, m);
    FigureValues(ids2, m);
  }

  lemma FigureValues(ids: seq<string>, m: map<string, string>)
    requires Lists(ids, m)
    ensures forall f | f in FigureFields(ids, m) :: f.key in m && f.value == Str(m[f.key])
  {
    hide FigureFields;
  }

  lemma FiguresKeys(ids1: seq<string>, ids2: seq<string>, m: map<string, string>)
    requires Lists(ids1, m) && Lists(ids2, m)
    ensures forall f | f in FigureFields(ids1, m) :: HasKey(FigureFields(ids2, m), f.key)
  {
    forall f | f in FigureFields(ids1, m)
      ensures HasKey(FigureFields(ids2, m), f.key)
    {
      assert f.key in ids1;
      FigureFieldOf(ids2, m, f.key);
    }
  }

  lemma ResultKeys(packRef: string, packHash: string, engine: string, ids: seq<string>, figures: map<string, string>)
    requires Lists(ids, figures)
    ensures forall b | b in ids :: b in figures
    ensures var p := ResultPayload(packRef, packHash, engine, ids, figures);
            p.Obj? && UniqueKeys(p.fields) && Dictionary(p)
  {
    hide ResultPayload, FigureFields, Lists;
    ResultParts(packRef, packHash, engine, ids, figures);
    var fs := ResultPayload(packRef, packHash, engine, ids, figures).fields;
    assert |fs[0].key| == 4 && |fs[1].key| == 9 && |fs[2].key| == 6 && |fs[3].key| == 5;
    FiguresAreDictionary(ids, figures);
    forall f | f in fs
      ensures Dictionary(f.value)
    {
      assert f == fs[0] || f == fs[1] || f == fs[2] || f == fs[3];
    }
  }

  lemma FiguresAreDictionary(ids: seq<string>, figures: map<string, string>)
    requires Lists(ids, figures)
    ensures Dictionary(Obj(FigureFields(ids, figures)))
  {
  }

  lemma FourValues(fs: seq<Field>, gs: seq<Field>)
    requires |fs| == |gs| == 4
    ensures ValuesSame(fs, gs)
       <==> && SameUpToKeyOrder(fs[0].value, gs[0].value) && SameUpToKeyOrder(fs[1].value, gs[1].value)
            && SameUpToKeyOrder(fs[2].value, gs[2].value) && SameUpToKeyOrder(fs[3].value, gs[3].value)
  {
    hide SameUpToKeyOrder;
  }

  lemma ResultParts(packRef: string, packHash: string, engine: string, ids: seq<string>, figures: map<string, string>)
    requires Lists(ids, figures)
    ensures forall b | b in ids :: b in figures
    ensures var p := ResultPayload(packRef, packHash, engine, ids, figures);
            p.Obj? && |p.fields| == 4
            && p.fields[0] == Field("pack", Str(packRef)) && p.fields[1] == Field("pack_hash", Str(packHash))
            && p.fields[2] == Field("engine", Str(engine)) && p.fields[3] == Field("boxes", Obj(FigureFields(ids, figures)))
  {
  }

  lemma ResultsSame(ref1: string, hash1: string, engine1: string, ids1: seq<string>, m1: map<string, string>,
                    ref2: string, hash2: string, engine2: string, ids2: seq<string>, m2: map<string, string>)
    requires Lists(ids1, m1) && Lists(ids2, m2)
    ensures SameUpToKeyOrder(ResultPayload(ref1, hash1, engine1, ids1, m1), ResultPayload(ref2, hash2, engine2, ids2, m2))
       <==> ref1 == ref2 && hash1 == hash2 && engine1 == engine2 && m1 == m2
  {
    hide ResultPayload, Dictionary, SameUpToKeyOrder, UniqueKeys, ValuesSame, Lists, FigureFields;
    ResultParts(ref1, hash1, engine1, ids1, m1);
    ResultParts(ref2, hash2, engine2, ids2, m2);
    ResultKeys(ref1, hash1, engine1, ids1, m1);
    var a, b := ResultPayload(ref1, hash1, engine1, ids1, m1), ResultPayload(ref2, hash2, engine2, ids2, m2);
    AlignedFieldsSame(a.fields, b.fields);
    FourValues(a.fields, b.fields);
    StringsSame(ref1, ref2);
    StringsSame(hash1, hash2);
    StringsSame(engine1, engine2);
    FiguresSame(ids1, m1, ids2, m2);
  }

  /** The hashed text of a result is the same exactly for the same pack, the same engine version and the
      same figure in every box; the lineage is not covered. */
  lemma ResultTextDetermines(ref1: string, hash1: string, engine1: string, ids1: seq<string>, m1: map<string, string>,
                             ref2: string, hash2: string, engine2: string, ids2: seq<string>, m2: map<string, string>)
    requires Lists(ids1, m1) && Lists(ids2, m2)
    ensures Canonical(ResultPayload(ref1, hash1, engine1, ids1, m1)) == Canonical(ResultPayload(ref2, hash2, engine2, ids2, m2))
       <==> ref1 == ref2 && hash1 == hash2 && engine1 == engine2 && m1 == m2
  {
    hide Canonical, Dictionary, SameUpToKeyOrder, UniqueKeys, ResultPayload, Lists;
    ResultParts(ref1, hash1, engine1, ids1, m1);
    ResultParts(ref2, hash2, engine2, ids2, m2);
    var a, b := ResultPayload(ref1, hash1, engine1, ids1, m1), ResultPayload(ref2, hash2, engine2, ids2, m2);
    ResultKeys(ref1, hash1, engine1, ids1, m1);
    ResultKeys(ref2, hash2, engine2, ids2, m2);
    PrintAlike(a, b);
    ResultsSame(ref1, hash1, engine1, ids1, m1, ref2, hash2, engine2, ids2, m2);
  }

  /** The figures of a result as texts. How a box's value is written may depend on the box, which fixes its
      number of places. */
  function FigureTexts(result: ComputationResult, show: (string, real) -> string): map<string, string> {
    map b | b in result.boxes :: show(b, result.boxes[b].value)
  }

  /** Different values of a box the two results share are written differently. */
  ghost predicate TellsFiguresApart(show: (string, real) -> string, r1: ComputationResult, r2: ComputationResult) {
    forall b | b in r1.boxes && b in r2.boxes ::
      show(b, r1.boxes[b].value) == show(b, r2.boxes[b].value) ==> r1.boxes[b].value == r2.boxes[b].value
  }

  lemma SameTextsSameFigures(r1: ComputationResult, r2: ComputationResult, show: (string, real) -> string)
    requires TellsFiguresApart(show, r1, r2)
    ensures FigureTexts(r1, show) == FigureTexts(r2, show) <==> Figures(r1) == Figures(r2)
  {
    if FigureTexts(r1, show) == FigureTexts(r2, show) {
      assert FigureTexts(r1, show).Keys == r1.boxes.Keys && FigureTexts(r2, show).Keys == r2.boxes.Keys;
      forall b | b in r1.boxes
        ensures b in r2.boxes && r1.boxes[b].value == r2.boxes[b].value
      {
        assert FigureTexts(r1, show)[b] == FigureTexts(r2, show)[b];
      }
    }
    if Figures(r1) == Figures(r2) {
      assert Figures(r1).Keys == r1.boxes.Keys && Figures(r2).Keys == r2.boxes.Keys;
      forall b | b in r1.boxes
        ensures b in r2.boxes && r1.boxes[b].value == r2.boxes[b].value
      {
        assert Figures(r1)[b] == Figures(r2)[b];
      }
    }
  }

  /** The result hash, over the box ids in any listing of them. */
  function ResultHash(H: HashFunction, packRef: string, packHash: string, engine: string, ids: seq<string>,
                      result: ComputationResult, show: (string, real) -> string): string
    requires forall b | b in ids :: b in result.boxes
  {
    H(Canonical(ResultPayload(packRef, packHash, engine, ids, FigureTexts(result, show))))
  }

  /** Equal result hashes mean the same pack, engine version and published value in every box: for values
      written differently when they differ, and no collision of the two texts. */
  lemma SameResultHash(H: HashFunction, ref1: string, hash1: string, engine1: string, ids1: seq<string>, r1: ComputationResult,
                       ref2: string, hash2: string, engine2: string, ids2: seq<string>, r2: ComputationResult,
                       show: (string, real) -> string)
    requires Lists(ids1, FigureTexts(r1, show)) && Lists(ids2, FigureTexts(r2, show)) && TellsFiguresApart(show, r1, r2)
    requires CollisionFree(H, {Canonical(ResultPayload(ref1, hash1, engine1, ids1, FigureTexts(r1, show))),
                               Canonical(ResultPayload(ref2, hash2, engine2, ids2, FigureTexts(r2, show)))})
    ensures forall b | b in ids1 :: b in r1.boxes
    ensures forall b | b in ids2 :: b in r2.boxes
    ensures ResultHash(H, ref1, hash1, engine1, ids1, r1, show) == ResultHash(H, ref2, hash2, engine2, ids2, r2, show)
       <==> ref1 == ref2 && hash1 == hash2 && engine1 == engine2 && Figures(r1) == Figures(r2)
  {
    ListedBoxes(ids1, r1, show);
    ListedBoxes(ids2, r2, show);
    hide Canonical, ResultPayload, Lists, TellsFiguresApart, FigureTexts, Figures;
    ResultTextDetermines(ref1, hash1, engine1, ids1, FigureTexts(r1, show), ref2, hash2, engine2, ids2, FigureTexts(r2, show));
    SameTextsSameFigures(r1, r2, show);
  }

  lemma ListedBoxes(ids: seq<string>, result: ComputationResult, show: (string, real) -> string)
    requires Lists(ids, FigureTexts(result, show))
    ensures forall b | b in ids :: b in result.boxes && b in FigureTexts(result, show)
  {
  }
}
