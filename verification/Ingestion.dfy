/** Row validation and batch ingestion, after ingestion/rules.py and _validate_rows in
    ingestion/service.py. How text is parsed into dates, decimals and codes is a parameter. */
module Ingestion {
  import opened Wrappers
  import opened RealSums
  import opened Decimals
  import opened Sequences

  /** The library's parsing: ISO dates as day numbers, decimals of every kind, trimming, upper-casing, isalpha. */
  datatype Reader = Reader(date: string -> Option<int>, decimal: string -> Option<Decimal>,
                           strip: string -> string, upper: string -> string, isAlpha: string -> bool)

  /** A row as the CSV reader yields it; a missing field and an empty one are the same to the rules. */
  type RawRow = map<Column, string>

  /** The columns the rules look at. */
  datatype Column = DocumentRef | DocumentDate | Counterparty | NetAmount | VatAmount | VatCode | Currency

  /** Rule identifiers ING-001 to ING-007. */
  datatype Rule = ING001 | ING002 | ING003 | ING004 | ING005 | ING006 | ING007

  datatype ParsedRow = ParsedRow(documentRef: string, date: int, counterparty: string, net: Decimal, vat: Decimal,
                                 vatCode: string, currency: string)

  datatype Failure = Failure(rule: Rule, field: Column)

  const REQUIRED: seq<Column> :=
    [DocumentRef, DocumentDate, Counterparty, NetAmount, VatAmount, VatCode, Currency]

  const RATES: map<string, real> :=
    map["S20" := 0.20, "R05" := 0.05, "Z00" := 0.0, "E00" := 0.0, "O00" := 0.0, "RC20" := 0.20]

  const VAT_TOLERANCE: real := 0.02

  predicate Present(raw: RawRow, field: Column) {
    field in raw && raw[field] != ""
  }

  /** The VAT a row should carry: net times rate, to pence. */
  function ExpectedVat(code: string, net: real): real
    requires code in RATES
  {
    ToPence(net * RATES[code])
  }

  /** The VAT of a row agrees with its code and net amount. */
  predicate VatConsistent(code: string, net: Decimal, vat: Decimal)
    requires code in RATES
  {
    if code == "RC20" then vat == Finite(0.0)
    else net.Finite? && vat.Finite? && Magnitude(vat.value - ExpectedVat(code, net.value)) <= VAT_TOLERANCE
  }

  /** The check of the VAT amount raises: on an infinite net amount or a signalling not-a-number under any
      known code, and on any other not-a-number unless the code is the reverse charge. */
  predicate Undefined(code: string, net: Decimal, vat: Decimal) {
    && code in RATES
    && (|| net.Infinity? || net.SignallingNaN? || vat.SignallingNaN?
        || (code != "RC20" && (net.QuietNaN? || vat.QuietNaN?)))
  }

  predicate CurrencyValid(reader: Reader, currency: string) {
    |currency| == 3 && reader.isAlpha(currency)
  }

  predicate AllPresent(raw: RawRow) {
    forall i | 0 <= i < |REQUIRED| :: Present(raw, REQUIRED[i])
  }

  predicate Violated(code: string, net: Decimal, vat: Decimal) {
    code in RATES && !VatConsistent(code, net, vat)
  }

  /** Validating the row raises instead of returning: it gets as far as the VAT check, and that raises. */
  predicate Raises(reader: Reader, raw: RawRow) {
    && AllPresent(raw)
    && reader.date(reader.strip(Field(raw, DocumentDate))).Some?
    && (var net := reader.decimal(reader.strip(Field(raw, NetAmount)));
        var vat := reader.decimal(reader.strip(Field(raw, VatAmount)));
        net.Some? && vat.Some? && Undefined(reader.upper(reader.strip(Field(raw, VatCode))), net.value, vat.value))
  }

  /** The failures of the values of a complete row with a readable date. An unreadable amount hides the
      checks on the code and the currency. */
  ghost predicate ValueFailure(inPeriod: bool, net: Option<Decimal>, vat: Option<Decimal>, code: string,
                               currencyValid: bool, f: Failure) {
    || (f == Failure(ING003, DocumentDate) && !inPeriod)
    || (f == Failure(ING004, NetAmount) && net.None?)
    || (f == Failure(ING004, VatAmount) && vat.None?)
    || (net.Some? && vat.Some? && CodeFailure(code, net.value, vat.value, currencyValid, f))
  }

  ghost predicate CodeFailure(code: string, net: Decimal, vat: Decimal, currencyValid: bool, f: Failure) {
    || (f == Failure(ING005, VatCode) && code !in RATES)
    || (f == Failure(ING006, VatAmount) && Violated(code, net, vat))
    || (f == Failure(ING007, Currency) && !currencyValid)
  }

  /** The failures a row deserves. A missing field hides every other check, and an unreadable date all the
      later ones. */
  ghost predicate Deserved(reader: Reader, raw: RawRow, start: int, end: int, f: Failure) {
    if !AllPresent(raw) then f.rule == ING001 && f.field in REQUIRED && !Present(raw, f.field)
    else
      var date := reader.date(reader.strip(Field(raw, DocumentDate)));
      if date.None? then f == Failure(ING002, DocumentDate)
      else
        ValueFailure(start <= date.value <= end, reader.decimal(reader.strip(Field(raw, NetAmount))),
                     reader.decimal(reader.strip(Field(raw, VatAmount))), reader.upper(reader.strip(Field(raw, VatCode))),
                     CurrencyValid(reader, reader.upper(reader.strip(Field(raw, Currency)))), f)
  }

  /** A field's text; the rules only look at fields they have found present. */
  function Field(raw: RawRow, field: Column): string {
    if field in raw then raw[field] else ""
  }

  /** The required fields that are missing, one failure each. */
  method MissingFields(raw: RawRow) returns (failures: seq<Failure>)
    ensures forall f :: f in failures <==> f.rule == ING001 && f.field in REQUIRED && !Present(raw, f.field)
    ensures Distinct(failures)
    ensures failures == [] <==> AllPresent(raw)
  {
    failures := [];
    for i := 0 to |REQUIRED|
      invariant forall f :: f in failures <==> f.rule == ING001 && f.field in REQUIRED[..i] && !Present(raw, f.field)
      invariant Distinct(failures)
      invariant failures == [] <==> forall k | 0 <= k < i :: Present(raw, REQUIRED[k])
    {
      RequiredDistinct(i);
      if !Present(raw, REQUIRED[i]) {
        failures := failures + [Failure(ING001, REQUIRED[i])];
      }
      assert REQUIRED[..i + 1] == REQUIRED[..i] + [REQUIRED[i]];
    }
    assert REQUIRED[..|REQUIRED|] == REQUIRED;
  }

  /** The decimal library's exception. */
  datatype DecimalError = InvalidOperation

  lemma ExceedsMeansInconsistent(code: string, net: Decimal, vat: Decimal)
    requires code in RATES && code != "RC20" && !Undefined(code, net, vat)
    ensures net.Finite? && (vat.Finite? || vat.Infinity?)
    ensures var difference := Subtracted(vat, Finite(ExpectedVat(code, net.value)));
            && difference.Some? && Absolute(difference.value).Some?
            && Exceeds(Absolute(difference.value).value, VAT_TOLERANCE) == Some(!VatConsistent(code, net, vat))
  {
    hide ExpectedVat;
    if vat.Finite? {
      var e := ExpectedVat(code, net.value);
      assert Subtracted(vat, Finite(e)) == Some(Finite(vat.value + -e));
      assert Magnitude(vat.value + -e) == Magnitude(vat.value - e);
    }
  }

  lemma ExpectedSteps(code: string, net: Decimal)
    requires code in RATES && net.Finite?
    ensures TimesRate(net, RATES[code]) == Some(Finite(net.value * RATES[code]))
    ensures QuantizePence(Finite(net.value * RATES[code])) == Some(Finite(ExpectedVat(code, net.value)))
  {
  }

  /** The checks on the VAT code and the VAT amount, in the order in which they can raise. */
  method CheckVat(code: string, net: Decimal, vat: Decimal) returns (r: Result<seq<Failure>, DecimalError>)
    ensures r.Err? <==> Undefined(code, net, vat)
    ensures code !in RATES ==> r == Ok([Failure(ING005, VatCode)])
    ensures r.Ok? && code in RATES ==> r.value == if VatConsistent(code, net, vat) then [] else [Failure(ING006, VatAmount)]
  {
    hide ToPence, ExpectedVat;
    var failures: seq<Failure> := [];
    if code !in RATES {
      failures := failures + [Failure(ING005, VatCode)];
      assert failures == [Failure(ING005, VatCode)];
    } else {
      if net.Finite? {
        ExpectedSteps(code, net);
      }
      var product := TimesRate(net, RATES[code]);
      if product.None? {
        return Err(InvalidOperation);
      }
      var expected := QuantizePence(product.value);
      if expected.None? {
        return Err(InvalidOperation);
      }
      if code != "RC20" {
        var difference := Subtracted(vat, expected.value);
        if difference.None? {
          return Err(InvalidOperation);
        }
        var exceeds := Exceeds(Absolute(difference.value).value, VAT_TOLERANCE);
        if exceeds.None? {
          return Err(InvalidOperation);
        }
        ExceedsMeansInconsistent(code, net, vat);
        if exceeds.value {
          failures := failures + [Failure(ING006, VatAmount)];
          assert failures == [Failure(ING006, VatAmount)];
        }
      } else {
        var differs := Differs(vat, 0.0);
        if differs.None? {
          return Err(InvalidOperation);
        }
        assert differs.value <==> !VatConsistent(code, net, vat);
        if differs.value {
          failures := failures + [Failure(ING006, VatAmount)];
          assert failures == [Failure(ING006, VatAmount)];
        }
      }
    }
    return Ok(failures);
  }

  /** The checks once both amounts are known: VAT code, VAT amount and currency. */
  method CheckCodes(reader: Reader, code: string, net: Decimal, vat: Decimal, currency: string)
    returns (r: Result<seq<Failure>, DecimalError>)
    ensures r.Err? <==> Undefined(code, net, vat)
    ensures r.Ok? ==> Distinct(r.value)
    ensures r.Ok? ==> forall f :: f in r.value <==> CodeFailure(code, net, vat, CurrencyValid(reader, currency), f)
  {
    hide VatConsistent, Undefined;
    var vatFailures := CheckVat(code, net, vat);
    if vatFailures.Err? {
      return vatFailures;
    }
    var failures := vatFailures.value;
    if |currency| != 3 || !reader.isAlpha(currency) {
      failures := failures + [Failure(ING007, Currency)];
    }
    return Ok(failures);
  }

  /** The checks on the values of a complete row with a readable date. */
  method CheckValues(reader: Reader, inPeriod: bool, net: Option<Decimal>, vat: Option<Decimal>, code: string, currency: string)
    returns (r: Result<seq<Failure>, DecimalError>)
    ensures r.Err? <==> net.Some? && vat.Some? && Undefined(code, net.value, vat.value)
    ensures r.Ok? ==> Distinct(r.value)
    ensures r.Ok? ==> forall f :: f in r.value <==>
              ValueFailure(inPeriod, net, vat, code, CurrencyValid(reader, currency), f)
  {
    hide Undefined, Violated, CurrencyValid;
    var failures: seq<Failure> := [];
    if !inPeriod {
      failures := failures + [Failure(ING003, DocumentDate)];
    }
    if net.None? {
      failures := failures + [Failure(ING004, NetAmount)];
    }
    if vat.None? {
      failures := failures + [Failure(ING004, VatAmount)];
    }
    if net.None? || vat.None? {
      return Ok(failures);
    }
    var codeFailures := CheckCodes(reader, code, net.value, vat.value, currency);
    if codeFailures.Err? {
      return codeFailures;
    }
    assert forall f :: f in failures + codeFailures.value <==> f in failures || f in codeFailures.value;
    DistinctConcat(failures, codeFailures.value);
    return Ok(failures + codeFailures.value);
  }

  lemma NothingFails(inPeriod: bool, net: Option<Decimal>, vat: Option<Decimal>, code: string, currencyValid: bool)
    requires forall f :: !ValueFailure(inPeriod, net, vat, code, currencyValid, f)
    ensures inPeriod && net.Some? && vat.Some? && code in RATES && VatConsistent(code, net.value, vat.value)
  {
    hide VatConsistent;
    assert !ValueFailure(inPeriod, net, vat, code, currencyValid, Failure(ING003, DocumentDate));
    assert !ValueFailure(inPeriod, net, vat, code, currencyValid, Failure(ING004, NetAmount));
    assert !ValueFailure(inPeriod, net, vat, code, currencyValid, Failure(ING004, VatAmount));
    assert !ValueFailure(inPeriod, net, vat, code, currencyValid, Failure(ING005, VatCode));
    assert !ValueFailure(inPeriod, net, vat, code, currencyValid, Failure(ING006, VatAmount));
  }

  datatype Verdict = Verdict(parsed: Option<ParsedRow>, failures: seq<Failure>)

  /** Parses and validates one row. Unless the VAT check raises, it reports exactly the failures the row
      deserves, each once, and is usable exactly when there are none. */
  method ValidateRow(reader: Reader, raw: RawRow, start: int, end: int) returns (r: Result<Verdict, DecimalError>)
    ensures r.Err? <==> Raises(reader, raw)
    ensures r.Ok? ==> forall f :: f in r.value.failures <==> Deserved(reader, raw, start, end, f)
    ensures r.Ok? ==> Distinct(r.value.failures)
    ensures r.Ok? ==> (r.value.parsed.Some? <==> r.value.failures == [])
    ensures r.Ok? && r.value.parsed.Some? ==> Usable(reader, raw, start, end, r.value.parsed.value)
  {
    hide VatConsistent, Undefined, ValueFailure, CurrencyValid, AllPresent, Field, Reads;
    var failures := MissingFields(raw);
    if failures != [] {
      return Ok(Verdict(None, failures));
    }
    var date := reader.date(reader.strip(Field(raw, DocumentDate)));
    if date.None? {
      return Ok(Verdict(None, [Failure(ING002, DocumentDate)]));
    }
    var net := reader.decimal(reader.strip(Field(raw, NetAmount)));
    var vat := reader.decimal(reader.strip(Field(raw, VatAmount)));
    var code := reader.upper(reader.strip(Field(raw, VatCode)));
    var currency := reader.upper(reader.strip(Field(raw, Currency)));
    var checked := CheckValues(reader, start <= date.value <= end, net, vat, code, currency);
    if checked.Err? {
      return Err(checked.error);
    }
    if checked.value != [] {
      return Ok(Verdict(None, checked.value));
    }
    NothingFails(start <= date.value <= end, net, vat, code, CurrencyValid(reader, currency));
    var p := ParsedRow(reader.strip(Field(raw, DocumentRef)), date.value, reader.strip(Field(raw, Counterparty)),
                       net.value, vat.value, code, currency);
    assert Reads(reader, raw, p) by {
      ReadsBack(reader, raw, p);
    }
    return Ok(Verdict(Some(p), []));
  }

  lemma ReadsBack(reader: Reader, raw: RawRow, p: ParsedRow)
    requires p.documentRef == reader.strip(Field(raw, DocumentRef))
    requires Some(p.date) == reader.date(reader.strip(Field(raw, DocumentDate)))
    requires p.counterparty == reader.strip(Field(raw, Counterparty))
    requires Some(p.net) == reader.decimal(reader.strip(Field(raw, NetAmount)))
    requires Some(p.vat) == reader.decimal(reader.strip(Field(raw, VatAmount)))
    requires p.vatCode == reader.upper(reader.strip(Field(raw, VatCode)))
    requires p.currency == reader.upper(reader.strip(Field(raw, Currency)))
    ensures Reads(reader, raw, p)
  {
  }

  /** A parsed row is what the reader makes of the raw fields, within the period, and consistent. */
  ghost predicate Usable(reader: Reader, raw: RawRow, start: int, end: int, p: ParsedRow) {
    && Reads(reader, raw, p) && start <= p.date <= end
    && p.vatCode in RATES && VatConsistent(p.vatCode, p.net, p.vat) && !Undefined(p.vatCode, p.net, p.vat)
  }

  /** The parsed row holds what the reader makes of the raw fields. */
  ghost predicate Reads(reader: Reader, raw: RawRow, p: ParsedRow) {
    && p.documentRef == reader.strip(Field(raw, DocumentRef))
    && Some(p.date) == reader.date(reader.strip(Field(raw, DocumentDate)))
    && p.counterparty == reader.strip(Field(raw, Counterparty))
    && Some(p.net) == reader.decimal(reader.strip(Field(raw, NetAmount)))
    && Some(p.vat) == reader.decimal(reader.strip(Field(raw, VatAmount)))
    && p.vatCode == reader.upper(reader.strip(Field(raw, VatCode)))
    && p.currency == reader.upper(reader.strip(Field(raw, Currency)))
  }

  lemma RequiredDistinct(i: nat)
    requires i < |REQUIRED|
    ensures REQUIRED[i] !in REQUIRED[..i]
  {
  }

  /** An accepted row that is not reverse-charge has finite amounts, and carries VAT within 2.5 pence of rate
      times net. */
  lemma AcceptedVatTolerance(code: string, net: Decimal, vat: Decimal)
    requires code in RATES && code != "RC20" && VatConsistent(code, net, vat)
    ensures net.Finite? && vat.Finite? && Magnitude(vat.value - net.value * RATES[code]) <= 0.025
  {
    PenceBound(net.value * RATES[code]);
    hide ToPence;
  }

  /** Pence due per pound of net under a code: 20 under the standard rate, 5 under the reduced one, none
      otherwise. */
  function PencePerPound(code: string): real {
    if code == "S20" then 20.0 else if code == "R05" then 5.0 else 0.0
  }

  /** Exactly the VAT that is accepted: within two pence of the nearest whole pence to what is due, halves going
      to the even neighbour; and under the reverse charge exactly none. */
  lemma AcceptedBand(code: string, net: real, vat: real) returns (pence: int)
    requires code in RATES
    ensures code == "RC20" ==> (VatConsistent(code, Finite(net), Finite(vat)) <==> vat == 0.0)
    ensures code != "RC20" ==>
              (VatConsistent(code, Finite(net), Finite(vat)) <==> (pence - 2) as real <= 100.0 * vat <= (pence + 2) as real)
    ensures var due := PencePerPound(code) * net;
            code != "RC20" ==> -0.5 <= due - pence as real <= 0.5 && (due - pence as real in {0.5, -0.5} ==> pence % 2 == 0)
  {
    KnownCodes(code);
    pence := RoundHalfEven(net * RATES[code] * 100.0);
    if code != "RC20" {
      assert PencePerPound(code) * net == net * RATES[code] * 100.0;
      assert ExpectedVat(code, net) == pence as real / 100.0;
    }
  }

  /** The codes the rules know. */
  lemma KnownCodes(code: string)
    ensures code in RATES <==> code in {"S20", "R05", "Z00", "E00", "O00", "RC20"}
    ensures code in RATES && code != "RC20" ==> RATES[code] == PencePerPound(code) / 100.0
  {
    assert "S20"[0] == 'S' && "R05"[0] == 'R' && "Z00"[0] == 'Z' && "E00"[0] == 'E' && "O00"[0] == 'O' && "RC20"[1] == 'C';
  }

  /** A row is complete when none of the columns the rules look at is missing or empty. */
  lemma CompleteRow(raw: RawRow)
    ensures AllPresent(raw) <==> forall c: Column :: c in raw && raw[c] != ""
  {
    if AllPresent(raw) {
      forall c: Column
        ensures c in raw && raw[c] != ""
      {
        EveryColumnIsRequired(c);
        var i :| 0 <= i < |REQUIRED| && REQUIRED[i] == c;
        assert Present(raw, REQUIRED[i]);
      }
    }
  }

  lemma EveryColumnIsRequired(c: Column)
    ensures c in REQUIRED
  {
    var k := match c
      case DocumentRef => 0
      case DocumentDate => 1
      case Counterparty => 2
      case NetAmount => 3
      case VatAmount => 4
      case VatCode => 5
      case Currency => 6;
    assert REQUIRED[k] == c;
  }

  /** Which rows are accepted: exactly those with every column filled, a date in the period, its first and last day
      included, two readable amounts, a known code with consistent VAT, and a currency of three letters. */
  lemma AcceptedExactlyWhen(reader: Reader, raw: RawRow, start: int, end: int)
    ensures (forall f :: !Deserved(reader, raw, start, end, f))
       <==> && (forall c: Column :: c in raw && raw[c] != "")
            && var date := reader.date(reader.strip(raw[DocumentDate]));
               var net, vat := reader.decimal(reader.strip(raw[NetAmount])), reader.decimal(reader.strip(raw[VatAmount]));
               var code, currency := reader.upper(reader.strip(raw[VatCode])), reader.upper(reader.strip(raw[Currency]));
               && date.Some? && start <= date.value && date.value <= end && net.Some? && vat.Some?
               && code in RATES && VatConsistent(code, net.value, vat.value)
               && |currency| == 3 && reader.isAlpha(currency)
  {
    hide VatConsistent, AllPresent;
    CompleteRow(raw);
    if (forall f :: !Deserved(reader, raw, start, end, f)) {
      if !AllPresent(raw) {
        MissingIsDeserved(reader, raw, start, end);
      }
      assert !Deserved(reader, raw, start, end, Failure(ING002, DocumentDate));
      assert !Deserved(reader, raw, start, end, Failure(ING003, DocumentDate));
      assert !Deserved(reader, raw, start, end, Failure(ING004, NetAmount));
      assert !Deserved(reader, raw, start, end, Failure(ING004, VatAmount));
      assert !Deserved(reader, raw, start, end, Failure(ING005, VatCode));
      assert !Deserved(reader, raw, start, end, Failure(ING006, VatAmount));
      assert !Deserved(reader, raw, start, end, Failure(ING007, Currency));
    }
  }

  lemma MissingIsDeserved(reader: Reader, raw: RawRow, start: int, end: int)
    requires !AllPresent(raw)
    ensures exists f :: Deserved(reader, raw, start, end, f)
  {
    var i :| 0 <= i < |REQUIRED| && !Present(raw, REQUIRED[i]);
    assert Deserved(reader, raw, start, end, Failure(ING001, REQUIRED[i]));
  }

  lemma PenceBound(x: real)
    ensures -0.005 <= x - ToPence(x) <= 0.005
  {
  }

  /** Which amounts get through: the VAT is finite, and so is the net amount unless the row is reverse-charge
      and its net amount is a quiet not-a-number, which no rule then refuses. */
  lemma AmountsThatGetThrough(code: string, net: Decimal, vat: Decimal)
    requires code in RATES && !Undefined(code, net, vat)
    ensures VatConsistent(code, net, vat) ==> vat.Finite? && (net.Finite? || (code == "RC20" && net.QuietNaN?))
    ensures code == "RC20" && net.QuietNaN? && vat == Finite(0.0) ==> VatConsistent(code, net, vat)
  {
  }

  // ---------------------------------------------------------------- a batch of rows

  /** One validated row: its number, and either the parsed row or its failures. */
  datatype Judged = Judged(number: nat, parsed: Option<ParsedRow>, failures: seq<Failure>)

  /** The verdicts on a batch: rows numbered from one, usable exactly when they have no failures. */
  ghost predicate Verdicts(judged: seq<Judged>) {
    forall i | 0 <= i < |judged| :: judged[i].number == i + 1 && (judged[i].parsed.Some? <==> judged[i].failures == [])
  }

  /** A row's verdict is the one the rules give. */
  ghost predicate JudgedRight(reader: Reader, raw: RawRow, start: int, end: int, j: Judged) {
    && (forall f :: f in j.failures <==> Deserved(reader, raw, start, end, f))
    && Distinct(j.failures)
    && (j.parsed.Some? <==> j.failures == [])
    && (j.parsed.Some? ==> Usable(reader, raw, start, end, j.parsed.value))
    && !Raises(reader, raw)
  }

  ghost function Accepted(judged: seq<Judged>): seq<Judged> {
    if judged == [] then []
    else
      var last := judged[|judged| - 1];
      Accepted(judged[..|judged| - 1]) + if last.parsed.Some? then [last] else []
  }

  ghost function Quarantined(judged: seq<Judged>): seq<Judged> {
    if judged == [] then []
    else
      var last := judged[|judged| - 1];
      Quarantined(judged[..|judged| - 1]) + if last.parsed.Some? then [] else [last]
  }

  /** The row numbers at which a rule failed within one row's failures, once per failure. */
  ghost function HitsIn(failures: seq<Failure>, rule: Rule, number: nat): seq<nat> {
    if failures == [] then []
    else
      HitsIn(failures[..|failures| - 1], rule, number)
      + if failures[|failures| - 1].rule == rule then [number] else []
  }

  /** All the row numbers at which a rule failed, in order, once per failure. */
  ghost function Hits(judged: seq<Judged>, rule: Rule): seq<nat> {
    if judged == [] then []
    else
      var last := judged[|judged| - 1];
      Hits(judged[..|judged| - 1], rule) + HitsIn(last.failures, rule, last.number)
  }

  ghost function FirstFive(hits: seq<nat>): (r: seq<nat>)
    ensures r <= hits && |r| <= 5 && (r != hits ==> |r| == 5)
  {
    if |hits| <= 5 then hits else hits[..5]
  }

  ghost function Gross(): Judged -> real {
    (j: Judged) => GrossOf(j)
  }

  /** Net plus VAT of a row whose amounts are finite. */
  function GrossOf(j: Judged): real {
    if j.parsed.Some? && j.parsed.value.net.Finite? && j.parsed.value.vat.Finite?
    then j.parsed.value.net.value + j.parsed.value.vat.value else 0.0
  }

  ghost predicate AllFinite(rows: seq<Judged>) {
    forall i | 0 <= i < |rows| :: rows[i].parsed.Some? ==> rows[i].parsed.value.net.Finite?
  }

  /** The control total of accepted rows: their gross, or a quiet not-a-number if one of them has one. */
  ghost function Control(rows: seq<Judged>): Decimal {
    if AllFinite(rows) then Finite(Sum(rows, Gross())) else QuietNaN
  }

  function NetOf(j: Judged): real {
    if j.parsed.Some? && j.parsed.value.net.Finite? then j.parsed.value.net.value else 0.0
  }

  function VatOf(j: Judged): real {
    if j.parsed.Some? && j.parsed.value.vat.Finite? then j.parsed.value.vat.value else 0.0
  }

  /** Of rows with finite amounts the control total is their net total and their VAT total together. */
  lemma {:induction false} ControlIsNetAndVat(rows: seq<Judged>)
    requires forall j | j in rows :: j.parsed.Some? && j.parsed.value.net.Finite? && j.parsed.value.vat.Finite?
    ensures Control(rows) == Finite(Sum(rows, NetOf) + Sum(rows, VatOf))
  {
    if rows != [] {
      ControlIsNetAndVat(rows[1..]);
      assert rows == [rows[0]] + rows[1..];
      assert AllFinite(rows[1..]);
    }
  }

  /** The counters for one rule, given the row numbers at which it failed. */
  ghost predicate Counted(counts: map<Rule, nat>, samples: map<Rule, seq<nat>>, rule: Rule, hits: seq<nat>) {
    && (rule in counts <==> hits != [])
    && (rule in samples <==> hits != [])
    && (hits != [] ==> counts[rule] == |hits| && samples[rule] == FirstFive(hits))
  }

  /** The counters hold exactly the rules that failed, with their number of failures and first samples. */
  ghost predicate Tallied(counts: map<Rule, nat>, samples: map<Rule, seq<nat>>, judged: seq<Judged>) {
    forall rule :: Counted(counts, samples, rule, Hits(judged, rule))
  }

  /** The same, after some of the failures of the next row. */
  ghost predicate Tallying(counts: map<Rule, nat>, samples: map<Rule, seq<nat>>, judged: seq<Judged>,
                           failures: seq<Failure>, number: nat) {
    forall rule :: Counted(counts, samples, rule, Hits(judged, rule) + HitsIn(failures, rule, number))
  }

  /** Keeps a row number as a sample while there are fewer than five. */
  function Sampled(known: seq<nat>, number: nat): seq<nat> {
    if |known| < 5 then known + [number] else known
  }

  lemma CountedMore(counts: map<Rule, nat>, samples: map<Rule, seq<nat>>, rule: Rule, hits: seq<nat>, number: nat,
                    sample: seq<nat>)
    requires Counted(counts, samples, rule, hits)
    requires sample == Sampled(if rule in samples then samples[rule] else [], number)
    ensures var count := (if rule in counts then counts[rule] else 0) + 1;
            Counted(counts[rule := count], samples[rule := sample], rule, hits + [number])
  {
    if |hits| >= 5 {
      assert (hits + [number])[..5] == hits[..5];
      assert (hits[..5] + [number])[..5] == hits[..5];
    }
  }

  /** Counting one more failure keeps the counters exact. */
  lemma TallyFailure(judged: seq<Judged>, failures: seq<Failure>, i: nat, number: nat,
                     counts: map<Rule, nat>, samples: map<Rule, seq<nat>>, sample: seq<nat>)
    requires i < |failures| && Tallying(counts, samples, judged, failures[..i], number)
    requires var rule := failures[i].rule;
             sample == Sampled(if rule in samples then samples[rule] else [], number)
    ensures var rule := failures[i].rule;
            var count := (if rule in counts then counts[rule] else 0) + 1;
            Tallying(counts[rule := count], samples[rule := sample], judged, failures[..i + 1], number)
  {
    hide Hits, FirstFive;
    var rule := failures[i].rule;
    var counts1 := counts[rule := (if rule in counts then counts[rule] else 0) + 1];
    assert failures[..i + 1][..i] == failures[..i];
    forall r: Rule
      ensures Counted(counts1, samples[rule := sample], r, Hits(judged, r) + HitsIn(failures[..i + 1], r, number))
    {
      var hits := Hits(judged, r) + HitsIn(failures[..i], r, number);
      assert Counted(counts, samples, r, hits);
      if r == rule {
        CountedMore(counts, samples, r, hits, number, sample);
        assert hits + [number] == Hits(judged, r) + HitsIn(failures[..i + 1], r, number);
      } else {
        assert hits == Hits(judged, r) + HitsIn(failures[..i + 1], r, number);
      }
    }
  }

  /** Counts the failures of one quarantined row. */
  method Tally(ghost judged: seq<Judged>, counts0: map<Rule, nat>, samples0: map<Rule, seq<nat>>,
               failures: seq<Failure>, number: nat)
    returns (counts: map<Rule, nat>, samples: map<Rule, seq<nat>>)
    requires Tallied(counts0, samples0, judged)
    ensures Tallying(counts, samples, judged, failures, number)
  {
    hide Tallied, Tallying, Counted;
    counts, samples := counts0, samples0;
    TallyNone(judged, counts, samples, number);
    for i := 0 to |failures|
      invariant Tallying(counts, samples, judged, failures[..i], number)
    {
      var rule := failures[i].rule;
      ghost var countsBefore, samplesBefore := counts, samples;
      counts := counts[rule := (if rule in counts then counts[rule] else 0) + 1];
      if rule !in samples {
        samples := samples[rule := []];
      }
      if |samples[rule]| < 5 {
        samples := samples[rule := samples[rule] + [number]];
      }
      TallyFailure(judged, failures, i, number, countsBefore, samplesBefore, samples[rule]);
      assert samples == samplesBefore[rule := samples[rule]];
    }
    assert failures[..|failures|] == failures;
  }

  lemma TallyNone(judged: seq<Judged>, counts: map<Rule, nat>, samples: map<Rule, seq<nat>>, number: nat)
    requires Tallied(counts, samples, judged)
    ensures Tallying(counts, samples, judged, [], number)
  {
    forall rule: Rule
      ensures Counted(counts, samples, rule, Hits(judged, rule) + HitsIn([], rule, number))
    {
      assert Hits(judged, rule) + HitsIn([], rule, number) == Hits(judged, rule);
      assert Counted(counts, samples, rule, Hits(judged, rule));
    }
  }

  /** What the service keeps of a batch. */
  datatype Report = Report(judged: seq<Judged>, accepted: nat, quarantined: nat, counts: map<Rule, nat>,
                           samples: map<Rule, seq<nat>>, controlTotal: Decimal)

  /** Validates the rows of a batch; a row that raises takes the whole batch with it. Otherwise rows 1..n are
      split into accepted and quarantined ones; every rule that failed is counted exactly, with the first
      five row numbers; the control total is the gross of the accepted rows. */
  method ValidateRows(reader: Reader, rows: seq<RawRow>, start: int, end: int) returns (r: Result<Report, DecimalError>)
    ensures r.Err? <==> exists i :: 0 <= i < |rows| && Raises(reader, rows[i])
    ensures r.Ok? ==> |r.value.judged| == |rows| && Verdicts(r.value.judged)
    ensures r.Ok? ==> forall i | 0 <= i < |rows| :: JudgedRight(reader, rows[i], start, end, r.value.judged[i])
    ensures r.Ok? ==> r.value.accepted == |Accepted(r.value.judged)| && r.value.quarantined == |Quarantined(r.value.judged)|
    ensures r.Ok? ==> Tallied(r.value.counts, r.value.samples, r.value.judged)
    ensures r.Ok? ==> r.value.controlTotal == Control(Accepted(r.value.judged))
  {
    hide Sum, Deserved, VatConsistent, Undefined, Raises, Tallied, Reads, Accepted, Quarantined, Control, Distinct;
    BatchStart();
    var judged: seq<Judged>, accepted, quarantined := [], 0, 0;
    var counts: map<Rule, nat>, samples: map<Rule, seq<nat>>, controlTotal := map[], map[], Finite(0.0);
    for i := 0 to |rows|
      invariant |judged| == i && Verdicts(judged)
      invariant forall k | 0 <= k < i :: JudgedRight(reader, rows[k], start, end, judged[k])
      invariant accepted == |Accepted(judged)| && quarantined == |Quarantined(judged)|
      invariant Tallied(counts, samples, judged)
      invariant controlTotal == Control(Accepted(judged)) && !controlTotal.SignallingNaN?
    {
      var verdict := ValidateRow(reader, rows[i], start, end);
      if verdict.Err? {
        return Err(verdict.error);
      }
      var parsed, failures := verdict.value.parsed, verdict.value.failures;
      ghost var before := judged;
      judged := judged + [Judged(i + 1, parsed, failures)];
      if parsed.None? || failures != [] {
        BatchStep(before, judged[i]);
        quarantined := quarantined + 1;
        counts, samples := Tally(before, counts, samples, failures, i + 1);
      } else {
        AmountsThatGetThrough(parsed.value.vatCode, parsed.value.net, parsed.value.vat);
        BatchStep(before, judged[i]);
        accepted := accepted + 1;
        var gross := Added(parsed.value.net, parsed.value.vat).value;
        controlTotal := Added(controlTotal, gross).value;
      }
      TallyStep(before, judged[i], counts, samples);
    }
    return Ok(Report(judged, accepted, quarantined, counts, samples, controlTotal));
  }

  lemma BatchStart()
    ensures Accepted([]) == Quarantined([]) == []
    ensures Control(Accepted([])) == Finite(0.0)
    ensures Tallied(map[], map[], [])
  {
  }

  lemma ControlSnoc(rows: seq<Judged>, j: Judged)
    requires j.parsed.Some? && j.parsed.value.vat.Finite?
    requires j.parsed.value.net.Finite? || j.parsed.value.net.QuietNaN?
    ensures Added(j.parsed.value.net, j.parsed.value.vat).Some?
    ensures Added(Control(rows), Added(j.parsed.value.net, j.parsed.value.vat).value) == Some(Control(rows + [j]))
  {
    hide Sum;
    SumSnoc(rows, j, Gross());
    assert AllFinite(rows + [j]) <==> AllFinite(rows) && j.parsed.value.net.Finite? by {
      assert (rows + [j])[|rows|] == j;
      assert forall i | 0 <= i < |rows| :: (rows + [j])[i] == rows[i];
    }
  }

  lemma BatchStep(before: seq<Judged>, j: Judged)
    requires j.parsed.Some? ==> j.parsed.value.vat.Finite? && (j.parsed.value.net.Finite? || j.parsed.value.net.QuietNaN?)
    ensures var judged := before + [j];
            |Accepted(judged)| == |Accepted(before)| + (if j.parsed.Some? then 1 else 0)
            && |Quarantined(judged)| == |Quarantined(before)| + (if j.parsed.Some? then 0 else 1)
    ensures j.parsed.None? ==> Control(Accepted(before + [j])) == Control(Accepted(before))
    ensures j.parsed.Some? ==>
              && Added(j.parsed.value.net, j.parsed.value.vat).Some?
              && Added(Control(Accepted(before)), Added(j.parsed.value.net, j.parsed.value.vat).value)
                 == Some(Control(Accepted(before + [j])))
    ensures !Control(Accepted(before + [j])).SignallingNaN?
  {
    hide Added;
    assert (before + [j])[..|before|] == before;
    if j.parsed.Some? {
      ControlSnoc(Accepted(before), j);
    } else {
      assert Accepted(before) + [] == Accepted(before);
    }
    hide Control;
  }

  lemma TallyStep(before: seq<Judged>, last: Judged, counts: map<Rule, nat>, samples: map<Rule, seq<nat>>)
    requires if last.failures == [] then Tallied(counts, samples, before)
             else Tallying(counts, samples, before, last.failures, last.number)
    ensures Tallied(counts, samples, before + [last])
  {
    hide Counted, HitsIn;
    if last.failures == [] {
      TallyNone(before, counts, samples, last.number);
    }
    assert (before + [last])[..|before|] == before;
    forall rule: Rule
      ensures Counted(counts, samples, rule, Hits(before + [last], rule))
    {
      assert Counted(counts, samples, rule, Hits(before, rule) + HitsIn(last.failures, rule, last.number));
    }
  }

  /** Every row number from 1 to n is in exactly one of the two lists. */
  lemma {:induction false} RowsArePartitioned(judged: seq<Judged>, number: nat)
    requires Verdicts(judged)
    ensures |Accepted(judged)| + |Quarantined(judged)| == |judged|
    ensures (exists j :: j in Accepted(judged) && j.number == number)
       <==> 1 <= number <= |judged| && judged[number - 1].parsed.Some?
    ensures (exists j :: j in Quarantined(judged) && j.number == number)
       <==> 1 <= number <= |judged| && judged[number - 1].parsed.None?
  {
    if judged != [] {
      var n := |judged| - 1;
      var init, last := judged[..n], judged[n];
      RowsArePartitioned(init, number);
      if last.parsed.Some? {
        assert last in Accepted(judged);
      } else {
        assert last in Quarantined(judged);
      }
    }
  }

  /** Both lists keep the order of the rows, so no row occurs twice. */
  lemma {:induction false} ListsKeepTheOrder(judged: seq<Judged>)
    requires Verdicts(judged)
    ensures RisingBelow(Accepted(judged), |judged|) && RisingBelow(Quarantined(judged), |judged|)
  {
    if judged != [] {
      ListsKeepTheOrder(judged[..|judged| - 1]);
    }
  }

  /** Row numbers rise strictly and end at most at n. */
  ghost predicate RisingBelow(rows: seq<Judged>, n: nat) {
    && (forall i, j | 0 <= i < j < |rows| :: rows[i].number < rows[j].number)
    && (forall i | 0 <= i < |rows| :: rows[i].number <= n)
  }
}
