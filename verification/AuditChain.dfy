/** The tamper-evident audit chain, after audit/hashing.py, audit/verify.py and the unit of work in
    shared/persistence/uow.py. The hash is an arbitrary function; what is needed of it is said where
    it is needed. */
module AuditChain {
  import opened Wrappers
  import opened CanonicalJson

  type HashFunction = string -> string

  const HASH_LENGTH: nat := 64
  const GENESIS_HASH: string := "0000000000000000000000000000000000000000000000000000000000000000"
  const SERIALIZER_VERSION := "1.0"

  /** What a service asks to be recorded. */
  datatype Draft = Draft(action: string, subjectType: string, subjectId: string, before: Option<Json>, after: Option<Json>)

  /** One row of the audit table, without its sequence number. */
  datatype AuditRecord = AuditRecord(tenant: string, action: string, subjectType: string, subjectId: string, actor: string,
                                     before: Option<Json>, after: Option<Json>, prevHash: string, eventHash: string,
                                     serializerVersion: string)

  datatype Event = Event(seqNo: int, rec: AuditRecord)

  function JsonOrNull(j: Option<Json>): Json {
    if j.None? then Null else j.value
  }

  /** What an event's hash commits to; its sequence number and time are not among it. */
  function AuditPayload(tenant: string, action: string, subjectType: string, subjectId: string, actor: string,
                        before: Option<Json>, after: Option<Json>, serializerVersion: string): Json {
    Obj([Field("tenant_id", Str(tenant)),
         Field("action", Str(action)),
         Field("subject_type", Str(subjectType)),
         Field("subject_id", Str(subjectId)),
         Field("actor", Str(actor)),
         Field("before", JsonOrNull(before)),
         Field("after", JsonOrNull(after)),
         Field("serializer_version", Str(serializerVersion))])
  }

  function PayloadOf(r: AuditRecord): Json {
    AuditPayload(r.tenant, r.action, r.subjectType, r.subjectId, r.actor, r.before, r.after, r.serializerVersion)
  }

  function ChainHash(H: HashFunction, prev: string, payload: Json): string {
    H(prev + Canonical(payload))
  }

  // ---------------------------------------------------------------- chains

  /** The hash the event at position k must continue from. */
  function HashBefore(events: seq<Event>, k: nat): string
    requires k <= |events|
  {
    if k == 0 then GENESIS_HASH else events[k - 1].rec.eventHash
  }

  predicate Links(H: HashFunction, prev: string, r: AuditRecord) {
    r.prevHash == prev && r.eventHash == ChainHash(H, prev, PayloadOf(r))
  }

  ghost predicate Linked(H: HashFunction, events: seq<Event>, k: nat)
    requires k < |events|
  {
    Links(H, HashBefore(events, k), events[k].rec)
  }

  ghost predicate Chain(H: HashFunction, events: seq<Event>) {
    forall k | 0 <= k < |events| :: Linked(H, events, k)
  }

  datatype Reason = PrevHashMismatch | PayloadMismatch

  datatype Verification = Verification(verified: bool, eventsChecked: nat, headHash: Option<string>,
                                       brokenAt: Option<int>, reason: Option<Reason>)

  /** The first event that does not continue its predecessor, and why. */
  ghost predicate FirstBreak(H: HashFunction, events: seq<Event>, k: nat, reason: Reason) {
    && k < |events|
    && (forall j | 0 <= j < k :: Linked(H, events, j))
    && !Linked(H, events, k)
    && (reason == PrevHashMismatch <==> events[k].rec.prevHash != HashBefore(events, k))
  }

  /** Recomputes every link. The log verifies exactly when it is a chain; otherwise the report names the
      first event that breaks it. */
  method VerifyChain(H: HashFunction, events: seq<Event>) returns (r: Verification)
    ensures r.verified <==> Chain(H, events)
    ensures r.eventsChecked == |events|
    ensures r.verified ==> r.brokenAt == None && r.reason == None
    ensures r.verified ==> r.headHash == if events == [] then None else Some(HashBefore(events, |events|))
    ensures !r.verified ==> r.headHash == None && r.brokenAt.Some? && r.reason.Some?
    ensures !r.verified ==>
              exists k: nat :: FirstBreak(H, events, k, r.reason.value) && events[k].seqNo == r.brokenAt.value
  {
    var prev := GENESIS_HASH;
    for k := 0 to |events|
      invariant prev == HashBefore(events, k)
      invariant forall j | 0 <= j < k :: Linked(H, events, j)
    {
      var event := events[k];
      if event.rec.prevHash != prev {
        assert FirstBreak(H, events, k, PrevHashMismatch);
        return Verification(false, |events|, None, Some(event.seqNo), Some(PrevHashMismatch));
      }
      var expected := ChainHash(H, prev, PayloadOf(event.rec));
      if expected != event.rec.eventHash {
        assert FirstBreak(H, events, k, PayloadMismatch);
        return Verification(false, |events|, None, Some(event.seqNo), Some(PayloadMismatch));
      }
      prev := event.rec.eventHash;
    }
    return Verification(true, |events|, if events == [] then None else Some(prev), None, None);
  }

  // ---------------------------------------------------------------- what a verified log attests

  ghost function Preimage(events: seq<Event>, k: nat): string
    requires k < |events|
  {
    HashBefore(events, k) + Canonical(PayloadOf(events[k].rec))
  }

  ghost function Preimages(events: seq<Event>): set<string> {
    set k | 0 <= k < |events| :: Preimage(events, k)
  }

  /** No two of these texts collide, none hashes to the genesis value, and hashes have their length. */
  ghost predicate CollisionFree(H: HashFunction, texts: set<string>) {
    && (forall x, y | x in texts && y in texts && H(x) == H(y) :: x == y)
    && (forall x | x in texts :: H(x) != GENESIS_HASH && |H(x)| == HASH_LENGTH)
  }

  /** The recorded states are dictionaries. */
  ghost predicate WellFormed(r: AuditRecord) {
    (r.before.Some? ==> Dictionary(r.before.value)) && (r.after.Some? ==> Dictionary(r.after.value))
  }

  ghost predicate AllWellFormed(events: seq<Event>) {
    forall e | e in events :: WellFormed(e.rec)
  }

  /** The two records agree on every hashed field; recorded states may differ in key order only. */
  ghost predicate SameContent(a: AuditRecord, b: AuditRecord) {
    && a.tenant == b.tenant && a.action == b.action && a.subjectType == b.subjectType
    && a.subjectId == b.subjectId && a.actor == b.actor && a.serializerVersion == b.serializerVersion
    && SameUpToKeyOrder(JsonOrNull(a.before), JsonOrNull(b.before))
    && SameUpToKeyOrder(JsonOrNull(a.after), JsonOrNull(b.after))
  }

  lemma PayloadKeys(r: AuditRecord)
    ensures UniqueKeys(PayloadOf(r).fields)
  {
    var fields := PayloadOf(r).fields;
    assert |fields[0].key| == 9 && |fields[1].key| == 6 && |fields[2].key| == 12 && |fields[3].key| == 10
        && |fields[4].key| == 5 && |fields[5].key| == 6 && |fields[6].key| == 5 && |fields[7].key| == 18;
    assert fields[1].key[0] == 'a' && fields[5].key[0] == 'b' && fields[4].key[1] == 'c' && fields[6].key[1] == 'f';
  }

  lemma PayloadDictionary(r: AuditRecord)
    requires WellFormed(r)
    ensures Dictionary(PayloadOf(r))
  {
    hide UniqueKeys;
    PayloadKeys(r);
    forall f | f in PayloadOf(r).fields
      ensures Dictionary(f.value)
    {
    }
  }

  lemma EightValues(fs: seq<Field>, gs: seq<Field>)
    requires |fs| == |gs| == 8
    ensures ValuesSame(fs, gs)
       <==> && SameUpToKeyOrder(fs[0].value, gs[0].value) && SameUpToKeyOrder(fs[1].value, gs[1].value)
            && SameUpToKeyOrder(fs[2].value, gs[2].value) && SameUpToKeyOrder(fs[3].value, gs[3].value)
            && SameUpToKeyOrder(fs[4].value, gs[4].value) && SameUpToKeyOrder(fs[5].value, gs[5].value)
            && SameUpToKeyOrder(fs[6].value, gs[6].value) && SameUpToKeyOrder(fs[7].value, gs[7].value)
  {
    hide SameUpToKeyOrder;
  }

  lemma SamePayload(a: AuditRecord, b: AuditRecord)
    ensures SameUpToKeyOrder(PayloadOf(a), PayloadOf(b)) <==> SameContent(a, b)
  {
    hide UniqueKeys, JsonOrNull, SameUpToKeyOrder, ValuesSame;
    var fs, gs := PayloadOf(a).fields, PayloadOf(b).fields;
    PayloadKeys(a);
    AlignedFieldsSame(fs, gs);
    EightValues(fs, gs);
    StringsSame(a.tenant, b.tenant);
    StringsSame(a.action, b.action);
    StringsSame(a.subjectType, b.subjectType);
    StringsSame(a.subjectId, b.subjectId);
    StringsSame(a.actor, b.actor);
    StringsSame(a.serializerVersion, b.serializerVersion);
  }

  /** The payload text determines the hashed fields, and nothing but them. */
  lemma PayloadTextDetermines(a: AuditRecord, b: AuditRecord)
    requires WellFormed(a) && WellFormed(b)
    ensures Canonical(PayloadOf(a)) == Canonical(PayloadOf(b)) <==> SameContent(a, b)
  {
    hide Canonical, Dictionary, SameContent, SameUpToKeyOrder, PayloadOf;
    PayloadDictionary(a);
    PayloadDictionary(b);
    PrintAlike(PayloadOf(a), PayloadOf(b));
    SamePayload(a, b);
  }

  // ---------------------------------------------------------------- tampering

  lemma SplitEqual(p1: string, c1: string, p2: string, c2: string)
    requires p1 + c1 == p2 + c2 && |p1| == |p2|
    ensures p1 == p2 && c1 == c2
  {
    assert p1 == (p1 + c1)[..|p1|] && p2 == (p2 + c2)[..|p2|];
    assert c1 == (p1 + c1)[|p1|..] && c2 == (p2 + c2)[|p2|..];
  }

  lemma HashLengths(H: HashFunction, events: seq<Event>, k: nat, texts: set<string>)
    requires Chain(H, events) && k <= |events| && Preimages(events) <= texts && CollisionFree(H, texts)
    ensures |HashBefore(events, k)| == HASH_LENGTH
    ensures k > 0 ==> HashBefore(events, k) == H(Preimage(events, k - 1)) && Preimage(events, k - 1) in texts
    ensures k > 0 ==> HashBefore(events, k) != GENESIS_HASH
  {
    if k > 0 {
      assert Linked(H, events, k - 1);
      assert Preimage(events, k - 1) in Preimages(events);
    }
  }

  /** Equal hashes pin down everything before them: the same number of events, with the same content. */
  lemma {:induction false} SameHashSamePrefix(H: HashFunction, a: seq<Event>, m: nat, b: seq<Event>, n: nat)
    requires Chain(H, a) && Chain(H, b) && m <= |a| && n <= |b|
    requires AllWellFormed(a) && AllWellFormed(b)
    requires CollisionFree(H, Preimages(a) + Preimages(b))
    requires HashBefore(a, m) == HashBefore(b, n)
    ensures m == n
    ensures forall k | 0 <= k < m :: SameContent(a[k].rec, b[k].rec) && a[k].rec.eventHash == b[k].rec.eventHash
    decreases m
  {
    hide Chain, Canonical, PayloadOf, SameContent, AllWellFormed, WellFormed, Preimages, CollisionFree;
    var texts := Preimages(a) + Preimages(b);
    HashLengths(H, a, m, texts);
    HashLengths(H, b, n, texts);
    if m > 0 && n > 0 {
      SameLastStep(H, a, m, b, n);
      SameHashSamePrefix(H, a, m - 1, b, n - 1);
    }
  }

  /** Equal hashes after an event each mean equal hashes before it, and equal content. */
  lemma SameLastStep(H: HashFunction, a: seq<Event>, m: nat, b: seq<Event>, n: nat)
    requires Chain(H, a) && Chain(H, b) && 0 < m <= |a| && 0 < n <= |b|
    requires AllWellFormed(a) && AllWellFormed(b)
    requires CollisionFree(H, Preimages(a) + Preimages(b))
    requires HashBefore(a, m) == HashBefore(b, n)
    ensures HashBefore(a, m - 1) == HashBefore(b, n - 1)
    ensures SameContent(a[m - 1].rec, b[n - 1].rec)
  {
    hide Chain, Canonical, PayloadOf, SameContent, AllWellFormed, WellFormed, Preimages;
    var texts := Preimages(a) + Preimages(b);
    HashLengths(H, a, m, texts);
    HashLengths(H, b, n, texts);
    HashLengths(H, a, m - 1, texts);
    HashLengths(H, b, n - 1, texts);
    assert Preimage(a, m - 1) == Preimage(b, n - 1);
    var x, y := a[m - 1].rec, b[n - 1].rec;
    SplitEqual(HashBefore(a, m - 1), Canonical(PayloadOf(x)), HashBefore(b, n - 1), Canonical(PayloadOf(y)));
    EventWellFormed(a, m - 1);
    EventWellFormed(b, n - 1);
    PayloadTextDetermines(x, y);
  }

  lemma EventWellFormed(events: seq<Event>, k: nat)
    requires AllWellFormed(events) && k < |events|
    ensures WellFormed(events[k].rec)
  {
  }

  ghost function HeadHash(events: seq<Event>): Option<string> {
    if events == [] then None else Some(HashBefore(events, |events|))
  }

  /** Two verified logs with the same head hash agree on every hashed field of every event. */
  lemma SameHeadSameLog(H: HashFunction, a: seq<Event>, b: seq<Event>)
    requires Chain(H, a) && Chain(H, b) && HeadHash(a) == HeadHash(b)
    requires AllWellFormed(a) && AllWellFormed(b) && CollisionFree(H, Preimages(a) + Preimages(b))
    ensures |a| == |b| && forall k | 0 <= k < |a| :: SameContent(a[k].rec, b[k].rec)
  {
    if a != [] && b != [] {
      SameHashSamePrefix(H, a, |a|, b, |b|);
    }
  }

  /** Altering any hashed field of one event of a verified log is reported at that event. */
  lemma AlterationIsLocalised(H: HashFunction, events: seq<Event>, k: nat, altered: AuditRecord)
    requires Chain(H, events) && k < |events| && WellFormed(events[k].rec) && WellFormed(altered)
    requires altered.prevHash == events[k].rec.prevHash && altered.eventHash == events[k].rec.eventHash
    requires !SameContent(events[k].rec, altered)
    requires CollisionFree(H, {Preimage(events, k), HashBefore(events, k) + Canonical(PayloadOf(altered))})
    ensures FirstBreak(H, events[k := Event(events[k].seqNo, altered)], k, PayloadMismatch)
  {
    hide Canonical, PayloadOf, SameContent, WellFormed;
    var tampered := events[k := Event(events[k].seqNo, altered)];
    var prev := HashBefore(events, k);
    var original, forged := prev + Canonical(PayloadOf(events[k].rec)), prev + Canonical(PayloadOf(altered));
    assert HashBefore(tampered, k) == prev;
    forall j | 0 <= j < k
      ensures Linked(H, tampered, j)
    {
      assert Linked(H, events, j) && HashBefore(tampered, j) == HashBefore(events, j);
    }
    assert Linked(H, events, k);
    PayloadTextDetermines(events[k].rec, altered);
    if original == forged {
      SplitEqual(prev, Canonical(PayloadOf(events[k].rec)), prev, Canonical(PayloadOf(altered)));
    }
  }

  /** Removing an event other than the last is reported at the event that followed it. */
  lemma RemovalIsReportedAtSuccessor(H: HashFunction, events: seq<Event>, k: nat)
    requires Chain(H, events) && k + 1 < |events| && AllWellFormed(events) && CollisionFree(H, Preimages(events))
    ensures FirstBreak(H, events[..k] + events[k + 1..], k, PrevHashMismatch)
    ensures (events[..k] + events[k + 1..])[k] == events[k + 1]
  {
    hide AllWellFormed;
    var rest := events[..k] + events[k + 1..];
    forall j | 0 <= j < k
      ensures Linked(H, rest, j)
    {
      assert Linked(H, events, j) && HashBefore(rest, j) == HashBefore(events, j);
    }
    assert Linked(H, events, k + 1);
    assert Preimages(events) + Preimages(events) == Preimages(events);
    if HashBefore(events, k + 1) == HashBefore(events, k) {
      SameHashSamePrefix(H, events, k + 1, events, k);
    }
    assert HashBefore(rest, k) == HashBefore(events, k);
  }

  /** Dropping events from the end leaves a log that verifies; only its head hash tells. */
  lemma TruncationOnlyShowsInHead(H: HashFunction, events: seq<Event>, k: nat)
    requires Chain(H, events) && k < |events| && AllWellFormed(events) && CollisionFree(H, Preimages(events))
    ensures Chain(H, events[..k])
    ensures HeadHash(events[..k]) != HeadHash(events)
  {
    hide AllWellFormed;
    var short := events[..k];
    forall j | 0 <= j < k
      ensures Linked(H, short, j)
    {
      assert Linked(H, events, j) && HashBefore(short, j) == HashBefore(events, j);
    }
    if k > 0 && HashBefore(short, k) == HashBefore(events, |events|) {
      assert HashBefore(short, k) == HashBefore(events, k);
      assert Preimages(events) + Preimages(events) == Preimages(events);
      SameHashSamePrefix(H, events, k, events, |events|);
    }
  }

  /** Strictly ascending positions in a log: which events remain. */
  ghost predicate Positions(events: seq<Event>, positions: seq<nat>) {
    && (forall i | 0 <= i < |positions| :: positions[i] < |events|)
    && (forall i, j | 0 <= i < j < |positions| :: positions[i] < positions[j])
  }

  ghost function Kept(events: seq<Event>, positions: seq<nat>): (rest: seq<Event>)
    requires Positions(events, positions)
    ensures |rest| == |positions|
  {
    seq(|positions|, i requires 0 <= i < |positions| => events[positions[i]])
  }

  /** Nothing before position k was removed. */
  ghost predicate PrefixKept(positions: seq<nat>, k: nat)
    requires k <= |positions|
  {
    forall i | 0 <= i < k :: positions[i] == i
  }

  lemma PrefixLinks(H: HashFunction, events: seq<Event>, positions: seq<nat>, k: nat)
    requires Chain(H, events) && Positions(events, positions) && k <= |positions| && PrefixKept(positions, k)
    ensures k <= |events| && HashBefore(Kept(events, positions), k) == HashBefore(events, k)
    ensures forall i | 0 <= i < k :: Linked(H, Kept(events, positions), i)
  {
    hide Links;
    assert k > 0 ==> positions[k - 1] == k - 1;
    forall i | 0 <= i < k
      ensures Linked(H, Kept(events, positions), i)
    {
      assert Linked(H, events, i);
      assert HashBefore(Kept(events, positions), i) == HashBefore(events, i);
    }
  }

  /** Whatever events are removed, one by one or in blocks, the first one that remains after a gap is
      reported, for continuing from an event that is not before it. */
  lemma GapIsReported(H: HashFunction, events: seq<Event>, positions: seq<nat>, k: nat)
    requires Chain(H, events) && AllWellFormed(events) && CollisionFree(H, Preimages(events))
    requires Positions(events, positions) && k < |positions| && PrefixKept(positions, k) && positions[k] != k
    ensures FirstBreak(H, Kept(events, positions), k, PrevHashMismatch)
  {
    hide AllWellFormed, PrefixKept;
    var p := positions[k];
    PrefixLinks(H, events, positions, k);
    assert Linked(H, events, p);
    assert Preimages(events) + Preimages(events) == Preimages(events);
    if HashBefore(events, p) == HashBefore(events, k) {
      SameHashSamePrefix(H, events, p, events, k);
    }
  }

  lemma {:induction false} FirstGap(positions: seq<nat>, n: nat) returns (k: nat)
    requires n <= |positions| && !PrefixKept(positions, n)
    ensures k < n && PrefixKept(positions, k) && positions[k] != k
  {
    if PrefixKept(positions, n - 1) {
      k := n - 1;
    } else {
      k := FirstGap(positions, n - 1);
    }
  }

  /** Exactly which removals go unnoticed: what is left of a verified log still verifies if and only if only
      its end was cut off. */
  lemma OnlyTruncationVerifies(H: HashFunction, events: seq<Event>, positions: seq<nat>)
    requires Chain(H, events) && AllWellFormed(events) && CollisionFree(H, Preimages(events))
    requires Positions(events, positions)
    ensures Chain(H, Kept(events, positions)) <==> PrefixKept(positions, |positions|)
    ensures PrefixKept(positions, |positions|) ==>
              |positions| <= |events| && Kept(events, positions) == events[..|positions|]
  {
    hide AllWellFormed, Linked, PrefixKept;
    var n := |positions|;
    if PrefixKept(positions, n) {
      PrefixLinks(H, events, positions, n);
      KeptPrefix(events, positions);
    } else {
      var k := FirstGap(positions, n);
      GapIsReported(H, events, positions, k);
    }
  }

  lemma KeptPrefix(events: seq<Event>, positions: seq<nat>)
    requires Positions(events, positions) && PrefixKept(positions, |positions|) && |positions| <= |events|
    ensures Kept(events, positions) == events[..|positions|]
  {
  }

  // ---------------------------------------------------------------- appending

  /** The record a draft becomes when it is chained after prev. */
  function Stamp(H: HashFunction, tenant: string, actor: string, prev: string, d: Draft): AuditRecord {
    var payload := AuditPayload(tenant, d.action, d.subjectType, d.subjectId, actor, d.before, d.after, SERIALIZER_VERSION);
    AuditRecord(tenant, d.action, d.subjectType, d.subjectId, actor, d.before, d.after, prev,
           ChainHash(H, prev, payload), SERIALIZER_VERSION)
  }

  /** The records of a unit of work's drafts, each chained to the one before. */
  function StampAll(H: HashFunction, tenant: string, actor: string, prev: string, drafts: seq<Draft>): (rs: seq<AuditRecord>)
    ensures |rs| == |drafts|
    decreases |drafts|
  {
    if drafts == [] then []
    else
      var init := StampAll(H, tenant, actor, prev, drafts[..|drafts| - 1]);
      var last := if init == [] then prev else init[|init| - 1].eventHash;
      init + [Stamp(H, tenant, actor, last, drafts[|drafts| - 1])]
  }

  function LastHash(prev: string, rs: seq<AuditRecord>): string {
    if rs == [] then prev else rs[|rs| - 1].eventHash
  }

  /** Appending one event stamped with the head hash keeps a log a chain. */
  lemma ChainSnoc(H: HashFunction, events: seq<Event>, e: Event)
    requires Chain(H, events) && Links(H, HashBefore(events, |events|), e.rec)
    ensures Chain(H, events + [e])
    ensures HashBefore(events + [e], |events| + 1) == e.rec.eventHash
  {
    var all := events + [e];
    forall k | 0 <= k < |all|
      ensures Linked(H, all, k)
    {
      assert HashBefore(all, k) == HashBefore(events, k);
      if k < |events| {
        assert Linked(H, events, k);
      }
    }
  }

  lemma StampLinks(H: HashFunction, tenant: string, actor: string, prev: string, d: Draft)
    ensures Links(H, prev, Stamp(H, tenant, actor, prev, d))
  {
  }

  /** A committed unit of work extends the log by a chain: with the head hash as tip, whatever sequence
      numbers the rows get, the log still verifies. */
  lemma {:induction false} CommitExtendsChain(H: HashFunction, events: seq<Event>, tenant: string, actor: string,
                                              drafts: seq<Draft>, added: seq<Event>)
    requires Chain(H, events) && |added| == |drafts|
    requires forall i | 0 <= i < |added| ::
               added[i].rec == StampAll(H, tenant, actor, HashBefore(events, |events|), drafts)[i]
    ensures Chain(H, events + added)
    ensures HashBefore(events + added, |events| + |added|)
         == LastHash(HashBefore(events, |events|), StampAll(H, tenant, actor, HashBefore(events, |events|), drafts))
    decreases |drafts|
  {
    hide Chain, Stamp, Links;
    if drafts == [] {
      assert events + added == events;
    } else {
      var n := |drafts| - 1;
      var prev := HashBefore(events, |events|);
      var init := StampAll(H, tenant, actor, prev, drafts[..n]);
      CommitExtendsChain(H, events, tenant, actor, drafts[..n], added[..n]);
      StampLinks(H, tenant, actor, LastHash(prev, init), drafts[n]);
      ChainSnoc(H, events + added[..n], added[n]);
      assert events + added == events + added[..n] + [added[n]];
    }
  }

  /** A domain event waiting in the outbox. */
  datatype DomainEvent = DomainEvent(kind: string, payload: Json)

  datatype CommitError = UnauditedMutation

  /** One service call's unit of work: drafts and domain events are buffered and written at commit. */
  class AuditedUnitOfWork {
    const tenant: string
    const actor: string
    var audits: seq<Draft>
    var events: seq<DomainEvent>

    constructor (tenant: string, actor: string)
      ensures this.tenant == tenant && this.actor == actor && audits == [] && events == []
    {
      this.tenant, this.actor := tenant, actor;
      audits, events := [], [];
    }

    method Record(d: Draft)
      modifies this`audits
      ensures audits == old(audits) + [d]
    {
      audits := audits + [d];
    }

    method Publish(e: DomainEvent)
      modifies this`events
      ensures events == old(events) + [e]
    {
      events := events + [e];
    }

    /** Refuses to commit without a draft; otherwise yields the audit rows chained from the tip the
        database holds for the tenant, and the outbox rows. */
    method Commit(H: HashFunction, tip: Option<string>) returns (r: Result<(seq<AuditRecord>, seq<DomainEvent>), CommitError>)
      ensures r.Err? <==> audits == []
      ensures r.Ok? ==> r.value.1 == events
      ensures r.Ok? ==> r.value.0 == StampAll(H, tenant, actor, TipOrGenesis(tip), audits)
    {
      if audits == [] {
        return Err(UnauditedMutation);
      }
      var prev := TipOrGenesis(tip);
      var rows: seq<AuditRecord> := [];
      for i := 0 to |audits|
        invariant rows == StampAll(H, tenant, actor, TipOrGenesis(tip), audits[..i])
        invariant prev == LastHash(TipOrGenesis(tip), rows)
      {
        assert audits[..i + 1][..i] == audits[..i];
        var row := Stamp(H, tenant, actor, prev, audits[i]);
        rows := rows + [row];
        prev := row.eventHash;
      }
      assert audits[..|audits|] == audits;
      return Ok((rows, events));
    }
  }

  /** scalar_one_or_none() or GENESIS_HASH. */
  function TipOrGenesis(tip: Option<string>): string {
    if tip.Some? && tip.value != "" then tip.value else GENESIS_HASH
  }
}
