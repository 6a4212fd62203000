/** From ingestion to the return: the per-row VAT tolerance of ING-006 bounds, over any batch, how far the
    VAT that the engine accumulates in a box can be from rate times net. */
module VatTolerance {
  import opened Wrappers
  import opened RealSums
  import opened StringOrder
  import opened Pack
  import opened Engine
  import opened Decimals
  import Ingestion
  import opened Sequences

  /** The mappings of a pack are dictionaries, so a kind occurs at most once in each. */
  ghost predicate KindsUnique(mapping: seq<(string, string)>) {
    forall i, j | 0 <= i < j < |mapping| :: mapping[i].0 != mapping[j].0
  }

  ghost predicate DictMappings(pack: RulePack) {
    forall c | c in pack.codes :: KindsUnique(pack.codes[c].ar) && KindsUnique(pack.codes[c].ap)
  }

  /** The row's code is the given one and the pack sends its VAT, under this kind, to box b. */
  predicate Reaches(pack: RulePack, t: Txn, code: string, kind: string, b: string) {
    t.vatCode == code && code in pack.codes
    && (kind, b) in match t.direction { case AR => pack.codes[code].ar case AP => pack.codes[code].ap }
  }

  function Reaching(pack: RulePack, txns: seq<Txn>, code: string, kind: string, b: string): seq<Txn> {
    if txns == [] then []
    else (if Reaches(pack, txns[0], code, kind, b) then [txns[0]] else []) + Reaching(pack, txns[1..], code, kind, b)
  }

  /** The amount of a contribution of this kind to box b from a row with this code. */
  ghost function KindIn(code: string, kind: string, b: string): Contribution -> real {
    (c: Contribution) => if c.vatCode == code && c.kind == kind && c.boxId == b then c.amount else 0.0
  }

  ghost function IfSent(kind: string, b: string, amount: real): ((string, string)) -> real {
    (m: (string, string)) => if m == (kind, b) then amount else 0.0
  }

  ghost function Net(): Txn -> real {
    (t: Txn) => t.net
  }

  lemma {:induction false} SentOnce(mapping: seq<(string, string)>, kind: string, b: string, amount: real)
    requires KindsUnique(mapping)
    ensures Sum(mapping, IfSent(kind, b, amount)) == if (kind, b) in mapping then amount else 0.0
  {
    if mapping != [] {
      SentOnce(mapping[1..], kind, b, amount);
      assert mapping[0] !in mapping[1..];
    }
  }

  /** A row adds its own VAT to the box if it reaches it under this kind, and nothing otherwise. */
  lemma RowShare(pack: RulePack, t: Txn, code: string, kind: string, b: string)
    requires DictMappings(pack)
    requires kind == "output_vat" || kind == "input_vat"
    requires code != "RC20"
    ensures Sum(ContributionsOf(pack, t), KindIn(code, kind, b)) == if Reaches(pack, t, code, kind, b) then t.vat else 0.0
  {
    hide Sum, SortBy;
    if t.vatCode !in pack.codes {
      SumEmpty(KindIn(code, kind, b));
    } else {
      var rule := pack.codes[t.vatCode];
      var mapping := MappingFor(rule, t.direction);
      var amount := if t.vatCode == code then t.vat else 0.0;
      SortByFacts(mapping, Kind);
      SumOfMapped(SortBy(mapping, Kind), t, rule, pack.boxDp, KindIn(code, kind, b), IfSent(kind, b, amount));
      SumPermutation(SortBy(mapping, Kind), mapping, IfSent(kind, b, amount));
      SentOnce(mapping, kind, b, amount);
    }
  }

  ghost function Share(pack: RulePack, f: Contribution -> real): Txn -> real {
    (t: Txn) => Sum(ContributionsOf(pack, t), f)
  }

  lemma {:induction false} LineageShares(pack: RulePack, txns: seq<Txn>, f: Contribution -> real)
    ensures Sum(Lineage(pack, txns), f) == Sum(txns, Share(pack, f))
  {
    hide ContributionsOf;
    if txns != [] {
      LineageShares(pack, txns[1..], f);
      SumConcat(ContributionsOf(pack, txns[0]), Lineage(pack, txns[1..]), f);
    }
  }

  /** A row's VAT is within 2.5 pence of rate times net. */
  ghost predicate Near(t: Txn, rate: real) {
    -0.025 <= t.vat - Product(rate, t.net) <= 0.025
  }

  lemma {:induction false} SharesNear(pack: RulePack, txns: seq<Txn>, code: string, kind: string, b: string, rate: real)
    requires DictMappings(pack)
    requires kind == "output_vat" || kind == "input_vat"
    requires code != "RC20"
    requires forall t | t in txns && t.vatCode == code :: Near(t, rate)
    ensures var rows := Reaching(pack, txns, code, kind, b);
            var gap := Sum(txns, Share(pack, KindIn(code, kind, b))) - Product(rate, Sum(rows, Net()));
            -Times(|rows|, 0.025) <= gap <= Times(|rows|, 0.025)
  {
    hide Reaches, ContributionsOf;
    if txns != [] {
      var t := txns[0];
      var rest := Reaching(pack, txns[1..], code, kind, b);
      SharesNear(pack, txns[1..], code, kind, b, rate);
      RowShare(pack, t, code, kind, b);
      if Reaches(pack, t, code, kind, b) {
        assert t.vatCode == code by { ReachesItsCode(pack, t, code, kind, b); }
        ReachingStep(t, rest, rate);
      } else {
        assert [] + rest == rest;
      }
    }
  }

  lemma ReachesItsCode(pack: RulePack, t: Txn, code: string, kind: string, b: string)
    requires Reaches(pack, t, code, kind, b)
    ensures t.vatCode == code
  {
  }

  lemma ReachingStep(t: Txn, rest: seq<Txn>, rate: real)
    ensures Product(rate, Sum([t] + rest, Net())) == Product(rate, t.net) + Product(rate, Sum(rest, Net()))
    ensures Times(|[t] + rest|, 0.025) == Times(|rest|, 0.025) + 0.025
  {
    SumConcat([t], rest, Net());
    SumSingle(t, Net());
  }

  /** The engine reads its rows from the accepted rows of a batch. */
  ghost predicate FromBatch(judged: seq<Ingestion.Judged>, t: Txn) {
    exists j :: j in Ingestion.Accepted(judged) && j.parsed.Some? && j.parsed.value.vatCode == t.vatCode
                && j.parsed.value.net == Finite(t.net) && j.parsed.value.vat == Finite(t.vat)
  }

  /** For rows that a batch accepted, with any code but the reverse charge, the VAT that reaches a box under
      a VAT kind is within 2.5 pence a row of rate times the net of the same rows. */
  lemma AcceptedVatReachesItsBox(reader: Ingestion.Reader, raws: seq<Ingestion.RawRow>, start: int, end: int,
                                 judged: seq<Ingestion.Judged>, pack: RulePack, txns: seq<Txn>, code: string, kind: string, b: string)
    requires |judged| == |raws|
    requires forall i | 0 <= i < |raws| :: Ingestion.JudgedRight(reader, raws[i], start, end, judged[i])
    requires forall t | t in txns :: FromBatch(judged, t)
    requires DictMappings(pack)
    requires code in Ingestion.RATES && code != "RC20"
    requires kind == "output_vat" || kind == "input_vat"
    ensures var rows := Reaching(pack, txns, code, kind, b);
            var accumulated := Sum(Lineage(pack, SortBy(txns, RowId)), KindIn(code, kind, b));
            Magnitude(accumulated - Ingestion.RATES[code] * Sum(rows, Net())) <= 0.025 * |rows| as real
  {
    hide Sum, SortBy, Reaching, Lineage, Reaches, FromBatch;
    var f := KindIn(code, kind, b);
    forall t | t in txns && t.vatCode == code
      ensures Near(t, Ingestion.RATES[code])
    {
      assert FromBatch(judged, t);
      FromBatchIsNear(reader, raws, start, end, judged, t);
    }
    SharesNear(pack, txns, code, kind, b, Ingestion.RATES[code]);
    LineageShares(pack, SortBy(txns, RowId), f);
    SortByFacts(txns, RowId);
    SumPermutation(SortBy(txns, RowId), txns, Share(pack, f));
  }

  lemma FromBatchIsNear(reader: Ingestion.Reader, raws: seq<Ingestion.RawRow>, start: int, end: int,
                        judged: seq<Ingestion.Judged>, t: Txn)
    requires |judged| == |raws|
    requires forall i | 0 <= i < |raws| :: Ingestion.JudgedRight(reader, raws[i], start, end, judged[i])
    requires FromBatch(judged, t) && t.vatCode != "RC20"
    ensures t.vatCode in Ingestion.RATES && Near(t, Ingestion.RATES[t.vatCode])
  {
    hide Ingestion.VatConsistent, Ingestion.Undefined, Ingestion.Raises, Ingestion.Deserved, Ingestion.Reads, Sequences.Distinct;
    var j :| j in Ingestion.Accepted(judged) && j.parsed.Some? && j.parsed.value.vatCode == t.vatCode
             && j.parsed.value.net == Finite(t.net) && j.parsed.value.vat == Finite(t.vat);
    AcceptedIsJudged(judged, j);
    var i :| 0 <= i < |judged| && judged[i] == j;
    assert Ingestion.JudgedRight(reader, raws[i], start, end, judged[i]);
    Ingestion.AcceptedVatTolerance(t.vatCode, Finite(t.net), Finite(t.vat));
  }

  lemma {:induction false} AcceptedIsJudged(judged: seq<Ingestion.Judged>, j: Ingestion.Judged)
    requires j in Ingestion.Accepted(judged)
    ensures j in judged
  {
    if judged != [] && j in Ingestion.Accepted(judged[..|judged| - 1]) {
      AcceptedIsJudged(judged[..|judged| - 1], j);
    }
  }
}
