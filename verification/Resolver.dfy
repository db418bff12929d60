/**
 From an organization's claims to its opportunities: score-based selection,
 open / closed / reopened logic, and reviewed overrides folded on top.
 */
module Resolver {
  import opened Prelude
  import opened Jobs

  type ClaimId = string

  datatype Precision = DatePrecision | DateTimePrecision | RelativeInferred

  datatype ClaimField = ApplicationOpen | ApplicationDeadline | ApplicationUrl | EventField | OtherField(name: string)

  /** A claim's JSON value; `time` is the instant a text parses to, if it does. */
  datatype Value =
    | Text(text: string, time: Option<int>)
    | Flag(flag: bool)
    | EventValue(title: Option<string>, startsAt: Option<string>, startsTime: Option<int>,
                 startsPrecision: Option<Precision>, url: Option<string>)
    | NullValue

  /** `time` is the publication time, or the extraction time where there is none. */
  datatype Claim = Claim(
    id: ClaimId, tenant: TenantId, org: OrgId, version: string,
    field: ClaimField, value: Value, confidence: real, time: int, precision: Option<Precision>)

  /** The sentences an explanation is put together from. */
  datatype Note = NewerSourceSaysOpen | NewestSourceSaysClosed | DeadlineIsPast | HighestConfidence | EventExtracted | ReviewedOverride(reason: string)

  datatype Kind = ApplicationKind | EventKind

  datatype Opportunity = Opportunity(
    id: string, org: OrgId, kind: Kind, title: string,
    deadlineAt: Option<string>, deadlinePrecision: Option<Precision>,
    startsAt: Option<string>, startsPrecision: Option<Precision>,
    url: Option<string>, confidence: real, stale: bool,
    sourceClaimIds: seq<ClaimId>, explanation: seq<Note>, reviewed: bool)

  datatype Patch = Patch(
    title: Option<string>, deadlineAt: Option<string>, startsAt: Option<string>, url: Option<string>, stale: Option<bool>)

  datatype Override = Override(opportunityId: string, patch: Patch, reason: string)

  type Scores = map<ClaimId, real>

  // ------------------------------------------------------------------ scores

  datatype SourceType = Application | GroupMe | Instagram | Gmail | LinkedIn | Website | BioLink | Screenshot | HeelLife

  function Authority(source: Option<SourceType>): (a: real)
    ensures 0.5 <= a <= 1.0
  {
    match source
    case None => 0.5
    case Some(Application) => 1.0
    case Some(GroupMe) => 0.96
    case Some(Instagram) => 0.94
    case Some(Gmail) => 0.92
    case Some(LinkedIn) => 0.88
    case Some(Website) => 0.78
    case Some(BioLink) => 0.75
    case Some(Screenshot) => 0.72
    case Some(HeelLife) => 0.55
  }

  function Recency(time: int, now: int): (r: real)
    ensures 0.55 <= r <= 1.0
  {
    var ageDays := if now <= time then 0.0 else (now - time) as real / 86400000.0;
    var capped := if ageDays < 365.0 then ageDays else 365.0;
    var linear := 1.0 - capped / 800.0;
    if linear < 0.55 then 0.55 else linear
  }

  function Weighted(confidence: real, authority: real, recency: real): real { confidence * authority * recency }

  function ScoreClaim(c: Claim, source: Option<SourceType>, now: int): real {
    Weighted(c.confidence, Authority(source), Recency(c.time, now))
  }

  lemma ProductInUnit(a: real, b: real)
    requires 0.0 <= a <= 1.0 && 0.0 <= b <= 1.0
    ensures 0.0 <= a * b <= a
  {
  }

  lemma ThreeFactors(c: real, a: real, r: real)
    requires 0.0 <= c <= 1.0 && 0.0 <= a <= 1.0 && 0.0 <= r <= 1.0
    ensures 0.0 <= Weighted(c, a, r) <= c
  {
    var ca := c * a;
    ProductInUnit(c, a);
    ProductInUnit(ca, r);
    assert Weighted(c, a, r) == ca * r;
  }

  /** A score never leaves 0..1 and never exceeds the extractor's confidence. */
  lemma ScoreInUnit(c: Claim, source: Option<SourceType>, now: int)
    requires 0.0 <= c.confidence <= 1.0
    ensures 0.0 <= ScoreClaim(c, source, now) <= c.confidence
  {
    ThreeFactors(c.confidence, Authority(source), Recency(c.time, now));
    hide Authority, Recency, Weighted;
  }


  lemma RecencyFalls(time: int, now: int, later: int)
    requires now <= later
    ensures now <= time ==> Recency(time, now) == 1.0
    ensures now - time >= 31_104_000_000 ==> Recency(time, now) == 0.55
    ensures Recency(time, later) <= Recency(time, now)
    ensures time <= now < later && now - time < 31_104_000_000 ==> Recency(time, later) < Recency(time, now)
  {
  }

  lemma Scaled(a: real, x: real, y: real)
    requires 0.0 < a && x < y
    ensures a * x < a * y
  {
  }

  lemma MiddleFactor(c: real, x: real, y: real, r: real)
    requires 0.0 < c && x < y && 0.0 < r
    ensures Weighted(c, x, r) < Weighted(c, y, r)
  {
    Scaled(c, x, y);
    Scaled(r, c * x, c * y);
  }

  lemma LastFactor(c: real, a: real, x: real, y: real)
    requires 0.0 < c && 0.0 < a && x < y
    ensures Weighted(c, a, x) < Weighted(c, a, y)
  {
    Scaled(c, 0.0, a);
    Scaled(c * a, x, y);
  }

  /** A claim's score falls as it ages, strictly until it is 360 days old, and is constant from then on. */
  lemma ScoreFallsWithAge(c: Claim, source: Option<SourceType>, now: int, later: int)
    requires 0.0 < c.confidence && now <= later
    ensures ScoreClaim(c, source, later) <= ScoreClaim(c, source, now)
    ensures c.time <= now < later && now - c.time < 31_104_000_000 ==> ScoreClaim(c, source, later) < ScoreClaim(c, source, now)
    ensures now - c.time >= 31_104_000_000 ==> ScoreClaim(c, source, later) == ScoreClaim(c, source, now)
  {
    RecencyFalls(c.time, now, later);
    RecencyFalls(c.time, later, later);
    var a, x, y := Authority(source), Recency(c.time, later), Recency(c.time, now);
    hide Authority, Recency, Weighted;
    if x < y { LastFactor(c.confidence, a, x, y); }
  }

  /** The sources in the order of their authority; an unknown source comes last. */
  const RANKING: seq<Option<SourceType>> :=
    [Some(Application), Some(GroupMe), Some(Instagram), Some(Gmail), Some(LinkedIn), Some(Website), Some(BioLink), Some(Screenshot), Some(HeelLife), None]

  lemma AuthorityFalls(i: nat, j: nat)
    requires i < j < |RANKING|
    ensures |RANKING| == 10 && Authority(RANKING[j]) < Authority(RANKING[i])
  {
  }

  /** Of equally old and equally confident claims the one from the source of higher authority scores higher. */
  lemma ScoreFollowsAuthority(c: Claim, now: int, i: nat, j: nat)
    requires 0.0 < c.confidence && i < j < |RANKING|
    ensures ScoreClaim(c, RANKING[j], now) < ScoreClaim(c, RANKING[i], now)
  {
    AuthorityFalls(i, j);
    var x, y, r := Authority(RANKING[j]), Authority(RANKING[i]), Recency(c.time, now);
    hide Authority, Recency, Weighted;
    MiddleFactor(c.confidence, x, y, r);
  }

  function SourceOf(sources: map<string, SourceType>, c: Claim): Option<SourceType> {
    if c.version in sources then Some(sources[c.version]) else None
  }

  /** The scores of all claims; of several claims with one id the last counts. */
  method ScoreClaims(cs: seq<Claim>, sources: map<string, SourceType>, now: int) returns (scores: Scores)
    ensures forall id :: id in scores <==> exists i | 0 <= i < |cs| :: cs[i].id == id
    ensures forall i | 0 <= i < |cs| && (forall j | i < j < |cs| :: cs[j].id != cs[i].id) ::
      scores[cs[i].id] == ScoreClaim(cs[i], if cs[i].version in sources then Some(sources[cs[i].version]) else None, now)
    ensures (forall c | c in cs :: 0.0 <= c.confidence <= 1.0) ==> forall id | id in scores :: 0.0 <= scores[id] <= 1.0
  {
    scores := map[];
    for n := 0 to |cs|
      invariant forall id :: id in scores <==> exists i | 0 <= i < n :: cs[i].id == id
      invariant forall i | 0 <= i < n && (forall j | i < j < n :: cs[j].id != cs[i].id) ::
        scores[cs[i].id] == ScoreClaim(cs[i], SourceOf(sources, cs[i]), now)
      invariant (forall c | c in cs :: 0.0 <= c.confidence <= 1.0) ==> forall id | id in scores :: 0.0 <= scores[id] <= 1.0
    {
      var score := ScoreClaim(cs[n], SourceOf(sources, cs[n]), now);
      if 0.0 <= cs[n].confidence <= 1.0 { ScoreInUnit(cs[n], SourceOf(sources, cs[n]), now); }
      hide ScoreClaim;
      scores := scores[cs[n].id := score];
    }
  }

  function Score(scores: Scores, c: Claim): real { if c.id in scores then scores[c.id] else 0.0 }

  // --------------------------------------------------------------- selection

  function Insert(c: Claim, sorted: seq<Claim>, key: Claim -> real): seq<Claim> {
    if sorted == [] || key(sorted[0]) <= key(c) then [c] + sorted
    else [sorted[0]] + Insert(c, sorted[1..], key)
  }

  /** Stable sort, largest key first. */
  function SortDescending(cs: seq<Claim>, key: Claim -> real): seq<Claim> {
    if cs == [] then [] else Insert(cs[0], SortDescending(cs[1..], key), key)
  }

  predicate Descending(cs: seq<Claim>, key: Claim -> real) {
    forall a, b | 0 <= a < b < |cs| :: key(cs[b]) <= key(cs[a])
  }

  lemma {:induction false} InsertKeepsAll(c: Claim, sorted: seq<Claim>, key: Claim -> real)
    ensures multiset(Insert(c, sorted, key)) == multiset(sorted) + multiset{c}
  {
    if sorted != [] && key(c) < key(sorted[0]) {
      InsertKeepsAll(c, sorted[1..], key);
      assert sorted == [sorted[0]] + sorted[1..];
    }
  }

  lemma PrependDescending(c: Claim, rest: seq<Claim>, key: Claim -> real)
    requires Descending(rest, key) && forall d | d in rest :: key(d) <= key(c)
    ensures Descending([c] + rest, key)
  {
  }

  lemma {:induction false} InsertSorts(c: Claim, sorted: seq<Claim>, key: Claim -> real)
    requires Descending(sorted, key)
    ensures Descending(Insert(c, sorted, key), key)
    ensures multiset(Insert(c, sorted, key)) == multiset(sorted) + multiset{c}
  {
    InsertKeepsAll(c, sorted, key);
    if sorted == [] || key(sorted[0]) <= key(c) {
      PrependDescending(c, sorted, key);
    } else {
      var rest := Insert(c, sorted[1..], key);
      InsertSorts(c, sorted[1..], key);
      forall d | d in rest
        ensures key(d) <= key(sorted[0])
      {
        assert d in multiset(rest);
      }
      PrependDescending(sorted[0], rest, key);
    }
  }

  lemma {:induction false} SortSorts(cs: seq<Claim>, key: Claim -> real)
    ensures Descending(SortDescending(cs, key), key)
    ensures multiset(SortDescending(cs, key)) == multiset(cs)
    ensures |SortDescending(cs, key)| == |cs|
  {
    if cs != [] {
      SortSorts(cs[1..], key);
      InsertSorts(cs[0], SortDescending(cs[1..], key), key);
      assert cs == [cs[0]] + cs[1..];
    }
    assert |multiset(SortDescending(cs, key))| == |multiset(cs)|;
  }

  /** The first element with the largest key: the reference for sort-then-take-first. */
  ghost predicate IsFirstMax(cs: seq<Claim>, key: Claim -> real, i: nat) {
    && i < |cs|
    && (forall j | 0 <= j < i :: key(cs[j]) < key(cs[i]))
    && (forall j | i < j < |cs| :: key(cs[j]) <= key(cs[i]))
  }

  lemma {:induction false} SortHeadIsArgmax(cs: seq<Claim>, key: Claim -> real) returns (i: nat)
    requires cs != []
    ensures IsFirstMax(cs, key, i) && SortDescending(cs, key) != [] && SortDescending(cs, key)[0] == cs[i]
  {
    i := 0;
    if |cs| > 1 {
      var k := SortHeadIsArgmax(cs[1..], key);
      if key(cs[1 + k]) > key(cs[0]) { i := 1 + k; }
      assert forall j | 1 <= j < |cs| :: cs[j] == cs[1..][j - 1];
    }
  }

  function Best(cs: seq<Claim>, key: Claim -> real): Option<Claim> {
    var sorted := SortDescending(cs, key);
    if sorted == [] then None else Some(sorted[0])
  }

  predicate DistinctKeys(cs: seq<Claim>, key: Claim -> real) {
    forall a, b | a in cs && b in cs && key(a) == key(b) :: a == b
  }

  lemma BestIsMax(cs: seq<Claim>, key: Claim -> real)
    ensures Best(cs, key).None? <==> cs == []
    ensures Best(cs, key).Some? ==> Best(cs, key).value in cs && forall c | c in cs :: key(c) <= key(Best(cs, key).value)
  {
    SortSorts(cs, key);
    if cs != [] {
      var i := SortHeadIsArgmax(cs, key);
    }
  }

  /** With distinct keys the choice does not depend on the order in which the claims are listed. */
  lemma BestIgnoresOrder(xs: seq<Claim>, ys: seq<Claim>, key: Claim -> real)
    requires multiset(xs) == multiset(ys) && DistinctKeys(xs, key)
    ensures Best(xs, key) == Best(ys, key)
  {
    assert |multiset(xs)| == |multiset(ys)|;
    assert forall c :: c in multiset(xs) <==> c in xs;
    assert forall c :: c in multiset(ys) <==> c in ys;
    BestIsMax(xs, key);
    BestIsMax(ys, key);
  }

  function OfField(cs: seq<Claim>, field: ClaimField): seq<Claim> {
    if cs == [] then []
    else (if cs[0].field == field then [cs[0]] else []) + OfField(cs[1..], field)
  }

  lemma {:induction false} OfFieldCounts(cs: seq<Claim>, field: ClaimField, c: Claim)
    ensures multiset(OfField(cs, field))[c] == if c.field == field then multiset(cs)[c] else 0
  {
    if cs != [] {
      OfFieldCounts(cs[1..], field, c);
      assert cs == [cs[0]] + cs[1..];
    }
  }

  lemma OfFieldIgnoresOrder(xs: seq<Claim>, ys: seq<Claim>, field: ClaimField)
    requires multiset(xs) == multiset(ys)
    ensures multiset(OfField(xs, field)) == multiset(OfField(ys, field))
  {
    forall c
      ensures multiset(OfField(xs, field))[c] == multiset(OfField(ys, field))[c]
    {
      OfFieldCounts(xs, field, c);
      OfFieldCounts(ys, field, c);
    }
  }

  lemma InField(cs: seq<Claim>, field: ClaimField, c: Claim)
    ensures c in OfField(cs, field) <==> c in cs && c.field == field
  {
    OfFieldCounts(cs, field, c);
    assert c in OfField(cs, field) <==> c in multiset(OfField(cs, field));
    assert c in cs <==> c in multiset(cs);
  }

  // ------------------------------------------------ the application itself

  function AsText(v: Value): string {
    match v
    case Text(s, _) => s
    case Flag(b) => if b then "true" else "false"
    case EventValue(_, _, _, _, _) => "[object Object]"
    case NullValue => "null"
  }

  function DeadlineTime(best: Option<Claim>): Option<int> {
    if best.Some? && best.value.value.Text? && best.value.value.text != "" then best.value.value.time else None
  }

  function ByScore(scores: Scores): Claim -> real { c => Score(scores, c) }
  function ByTime(): Claim -> real { (c: Claim) => c.time as real }

  datatype Picks = Picks(deadline: Option<Claim>, url: Option<Claim>, open: Option<Claim>)

  function Pick(cs: seq<Claim>, scores: Scores): Picks {
    Picks(Best(OfField(cs, ApplicationDeadline), ByScore(scores)),
          Best(OfField(cs, ApplicationUrl), ByScore(scores)),
          Best(OfField(cs, ApplicationOpen), ByTime()))
  }

  function ClaimTime(c: Option<Claim>): int { if c.Some? then c.value.time else 0 }

  predicate Closed(p: Picks) {
    p.open.Some? && p.open.value.value == Flag(false) && ClaimTime(p.open) >= ClaimTime(p.deadline)
  }

  predicate Reopened(p: Picks) {
    p.open.Some? && p.open.value.value == Flag(true) && ClaimTime(p.open) > ClaimTime(p.deadline)
  }

  predicate Stale(p: Picks, now: int) {
    Closed(p) || (!Reopened(p) && DeadlineTime(p.deadline).Some? && DeadlineTime(p.deadline).value < now)
  }

  function OptionalScore(scores: Scores, c: Option<Claim>): real { if c.Some? then Score(scores, c.value) else 0.0 }

  function IdOf(c: Option<Claim>): seq<ClaimId> { if c.Some? && c.value.id != "" then [c.value.id] else [] }

  function ApplicationId(org: OrgId): string { org + ":application" }

  function ApplicationOpportunity(org: OrgId, p: Picks, scores: Scores, now: int): Opportunity {
    var reopened, closed, stale := Reopened(p), Closed(p), Stale(p, now);
    var d, o := OptionalScore(scores, p.deadline), OptionalScore(scores, p.open);
    Opportunity(
      ApplicationId(org), org, ApplicationKind, "Application",
      if reopened || p.deadline.None? then None else Some(AsText(p.deadline.value.value)),
      if reopened || p.deadline.None? then None else p.deadline.value.precision,
      None, None,
      if p.url.Some? then Some(AsText(p.url.value.value)) else None,
      if d < o then o else d, stale, IdOf(p.deadline) + IdOf(p.url) + IdOf(p.open),
      [if reopened then NewerSourceSaysOpen else if closed then NewestSourceSaysClosed
       else if stale then DeadlineIsPast else HighestConfidence],
      false)
  }

  function Applications(org: OrgId, cs: seq<Claim>, scores: Scores, now: int): seq<Opportunity> {
    var p := Pick(cs, scores);
    if p.deadline.Some? || p.open.Some? then [ApplicationOpportunity(org, p, scores, now)] else []
  }

  // ------------------------------------------------------------------ events

  function EventId(org: OrgId, v: Value): string
    requires v.EventValue?
  {
    org + ":event:" + GetOr(v.title, "undefined") + ":" + GetOr(v.startsAt, "")
  }

  function EventOpportunity(org: OrgId, c: Claim, scores: Scores, now: int): Opportunity
    requires c.value.EventValue?
  {
    var v := c.value;
    Opportunity(
      EventId(org, v), org, EventKind, GetOr(v.title, "Recruiting event"), None, None,
      v.startsAt, v.startsPrecision, v.url, Score(scores, c),
      v.startsAt.Some? && v.startsAt.value != "" && v.startsTime.Some? && v.startsTime.value < now,
      [c.id], [EventExtracted], false)
  }

  /** A claim whose value is no event is skipped. */
  function OneEvent(org: OrgId, c: Claim, scores: Scores, now: int): seq<Opportunity> {
    if c.value.EventValue? then [EventOpportunity(org, c, scores, now)] else []
  }

  function Events(org: OrgId, cs: seq<Claim>, scores: Scores, now: int): seq<Opportunity> {
    if cs == [] then [] else OneEvent(org, cs[0], scores, now) + Events(org, cs[1..], scores, now)
  }

  // --------------------------------------------------------------- overrides

  function Patched(o: Opportunity, v: Override): Opportunity {
    o.(title := GetOr(v.patch.title, o.title),
       deadlineAt := if v.patch.deadlineAt.Some? then v.patch.deadlineAt else o.deadlineAt,
       startsAt := if v.patch.startsAt.Some? then v.patch.startsAt else o.startsAt,
       url := if v.patch.url.Some? then v.patch.url else o.url,
       stale := GetOr(v.patch.stale, o.stale),
       explanation := o.explanation + [ReviewedOverride(v.reason)],
       reviewed := true)
  }

  /** Position of the first opportunity with the given id, or the length if there is none. */
  function Find(out: seq<Opportunity>, id: string): (i: nat)
    ensures i <= |out|
    ensures i < |out| ==> out[i].id == id
    ensures forall j | 0 <= j < i :: out[j].id != id
  {
    if out == [] then 0 else if out[0].id == id then 0 else 1 + Find(out[1..], id)
  }

  function ApplyOverride(out: seq<Opportunity>, v: Override): seq<Opportunity> {
    var i := Find(out, v.opportunityId);
    if i == |out| then out else out[i := Patched(out[i], v)]
  }

  function ApplyOverrides(out: seq<Opportunity>, vs: seq<Override>): seq<Opportunity> {
    if vs == [] then out else ApplyOverride(ApplyOverrides(out, vs[..|vs| - 1]), vs[|vs| - 1])
  }

  function Resolve(org: OrgId, cs: seq<Claim>, scores: Scores, overrides: seq<Override>, now: int): seq<Opportunity> {
    ApplyOverrides(Applications(org, cs, scores, now) + Events(org, OfField(cs, EventField), scores, now), overrides)
  }

  /** One turn of the loop over the events. */
  lemma PushStep(out: seq<Opportunity>, org: OrgId, events: seq<Claim>, scores: Scores, now: int, i: nat)
    requires i < |events|
    ensures
      var rest, e := Events(org, events[i + 1..], scores, now), events[i];
      out + Events(org, events[i..], scores, now) == (if e.value.EventValue? then out + [EventOpportunity(org, e, scores, now)] else out) + rest
  {
    assert events[i..][1..] == events[i + 1..];
    hide EventOpportunity;
    var rest := Events(org, events[i + 1..], scores, now);
    assert out + (OneEvent(org, events[i], scores, now) + rest) == out + OneEvent(org, events[i], scores, now) + rest;
    assert !events[i].value.EventValue? ==> out + OneEvent(org, events[i], scores, now) == out;
  }

  /** The claims that describe an event, in the order in which they are listed. */
  function EventClaims(cs: seq<Claim>): seq<Claim> {
    if cs == [] then [] else (if cs[0].field == EventField && cs[0].value.EventValue? then [cs[0]] else []) + EventClaims(cs[1..])
  }

  /** The opportunity says what the event claim says, field by field, and is stale once the start has passed. */
  ghost predicate TellsEvent(o: Opportunity, org: OrgId, c: Claim, scores: Scores, now: int) {
    && c.value.EventValue? && var v := c.value;
    && o.kind == EventKind && o.org == org && o.sourceClaimIds == [c.id] && o.explanation == [EventExtracted] && !o.reviewed
    && o.id == org + ":event:" + (if v.title.Some? then v.title.value else "undefined") + ":" + (if v.startsAt.Some? then v.startsAt.value else "")
    && o.title == (if v.title.Some? then v.title.value else "Recruiting event")
    && o.startsAt == v.startsAt && o.startsPrecision == v.startsPrecision && o.url == v.url
    && o.deadlineAt == None && o.deadlinePrecision == None
    && o.confidence == (if c.id in scores then scores[c.id] else 0.0)
    && (o.stale <==> v.startsAt.Some? && v.startsAt.value != "" && v.startsTime.Some? && v.startsTime.value < now)
  }

  /** One opportunity for each event claim, in order. */
  ghost predicate TellEvents(out: seq<Opportunity>, org: OrgId, events: seq<Claim>, scores: Scores, now: int) {
    |out| == |events| && forall i | 0 <= i < |out| :: TellsEvent(out[i], org, events[i], scores, now)
  }

  lemma OneEventTells(org: OrgId, c: Claim, scores: Scores, now: int)
    ensures TellEvents(OneEvent(org, c, scores, now), org, if c.value.EventValue? then [c] else [], scores, now)
  {
  }

  lemma TellTogether(a: seq<Opportunity>, b: seq<Opportunity>, org: OrgId, xs: seq<Claim>, ys: seq<Claim>, scores: Scores, now: int)
    requires TellEvents(a, org, xs, scores, now) && TellEvents(b, org, ys, scores, now)
    ensures TellEvents(a + b, org, xs + ys, scores, now)
  {
    hide TellsEvent;
  }

  lemma {:induction false} EventsTell(org: OrgId, cs: seq<Claim>, scores: Scores, now: int)
    ensures TellEvents(Events(org, OfField(cs, EventField), scores, now), org, EventClaims(cs), scores, now)
  {
    if cs != [] {
      var c, rest := cs[0], OfField(cs[1..], EventField);
      EventsTell(org, cs[1..], scores, now);
      hide TellEvents, OneEvent;
      if c.field == EventField {
        assert OfField(cs, EventField) == [c] + rest;
        OneEventTells(org, c, scores, now);
        TellTogether(OneEvent(org, c, scores, now), Events(org, rest, scores, now),
                     org, if c.value.EventValue? then [c] else [], EventClaims(cs[1..]), scores, now);
      } else {
        assert OfField(cs, EventField) == rest && EventClaims(cs) == EventClaims(cs[1..]);
      }
    }
  }

  lemma {:induction false} AllOfField(cs: seq<Claim>, field: ClaimField)
    requires forall c | c in cs :: c.field == field
    ensures OfField(cs, field) == cs
  {
    if cs != [] { AllOfField(cs[1..], field); }
  }

  lemma EventsOnlyTell(org: OrgId, events: seq<Claim>, scores: Scores, now: int)
    requires forall c | c in events :: c.field == EventField
    ensures TellEvents(Events(org, events, scores, now), org, EventClaims(events), scores, now)
  {
    AllOfField(events, EventField);
    EventsTell(org, events, scores, now);
  }

  method PushEvents(org: OrgId, events: seq<Claim>, scores: Scores, now: int) returns (out: seq<Opportunity>)
    requires forall c | c in events :: c.field == EventField
    ensures out == Events(org, events, scores, now)
    ensures TellEvents(out, org, EventClaims(events), scores, now)
  {
    EventsOnlyTell(org, events, scores, now);
    assert events[|events|..] == [] && Events(org, [], scores, now) == [];
    hide TellEvents, EventClaims, EventOpportunity, Events, OneEvent;
    out := [];
    for i := 0 to |events|
      invariant out + Events(org, events[i..], scores, now) == Events(org, events, scores, now)
    {
      PushStep(out, org, events, scores, now, i);
      if events[i].value.EventValue? {
        out := out + [EventOpportunity(org, events[i], scores, now)];
      }
    }
  }

  method ApplyAll(found: seq<Opportunity>, overrides: seq<Override>) returns (out: seq<Opportunity>)
    ensures out == ApplyOverrides(found, overrides)
  {
    out := found;
    for i := 0 to |overrides|
      invariant out == ApplyOverrides(found, overrides[..i])
    {
      assert overrides[..i + 1][..i] == overrides[..i];
      var at := Find(out, overrides[i].opportunityId);
      if at < |out| { out := out[at := Patched(out[at], overrides[i])]; }
    }
    assert overrides[..|overrides|] == overrides;
  }

  /** Without overrides: the application that tells of the picks, if any, then one opportunity for each event claim, in order. */
  ghost predicate TellsAll(out: seq<Opportunity>, org: OrgId, cs: seq<Claim>, scores: Scores, now: int) {
    var p := Pick(cs, scores);
    var n := if p.deadline.Some? || p.open.Some? then 1 else 0;
    && n <= |out| && TellEvents(out[n..], org, EventClaims(cs), scores, now)
    && (n == 1 ==> TellsApplication(out[0], org, p.deadline, p.url, p.open, scores, now))
  }

  lemma ResolveTells(org: OrgId, cs: seq<Claim>, scores: Scores, overrides: seq<Override>, now: int)
    ensures TellsAll(Resolve(org, cs, scores, [], now), org, cs, scores, now)
    ensures |Resolve(org, cs, scores, overrides, now)| == |Resolve(org, cs, scores, [], now)|
    ensures forall i | 0 <= i < |Resolve(org, cs, scores, [], now)| ::
      SameButReviewed(Resolve(org, cs, scores, overrides, now)[i], Resolve(org, cs, scores, [], now)[i])
  {
    var apps, events := Applications(org, cs, scores, now), Events(org, OfField(cs, EventField), scores, now);
    ApplicationTells(org, cs, scores, now);
    EventsTell(org, cs, scores, now);
    OverridesKeepShape(apps + events, overrides);
    assert (apps + events)[|apps|..] == events;
    assert Resolve(org, cs, scores, [], now) == apps + events;
    hide TellsApplication, TellEvents, Pick, EventClaims, Applications, Events, OfField, SameButReviewed;
  }

  /** resolveOrganization up to the write: the application, the events, then the overrides patched in place. */
  method ResolveOrganization(org: OrgId, cs: seq<Claim>, scores: Scores, overrides: seq<Override>, now: int)
    returns (out: seq<Opportunity>)
    ensures out == Resolve(org, cs, scores, overrides, now)
    ensures overrides == [] ==> TellsAll(out, org, cs, scores, now)
  {
    forall c | c in OfField(cs, EventField)
      ensures c.field == EventField
    {
      InField(cs, EventField, c);
    }
    ResolveTells(org, cs, scores, overrides, now);
    hide TellsAll, SameButReviewed;
    out := PushEvents(org, OfField(cs, EventField), scores, now);
    out := ApplyAll(Applications(org, cs, scores, now) + out, overrides);
  }

  // ----------------------------------------------------------- main results

  /** Distinct scores among deadlines and among links, distinct times among open/closed statements. */
  ghost predicate Unambiguous(cs: seq<Claim>, scores: Scores) {
    && DistinctKeys(OfField(cs, ApplicationDeadline), ByScore(scores))
    && DistinctKeys(OfField(cs, ApplicationUrl), ByScore(scores))
    && DistinctKeys(OfField(cs, ApplicationOpen), ByTime())
  }

  /** The application opportunity is the same for every order in which the claims are listed. */
  lemma ApplicationIgnoresOrder(org: OrgId, xs: seq<Claim>, ys: seq<Claim>, scores: Scores, now: int)
    requires multiset(xs) == multiset(ys) && Unambiguous(xs, scores)
    ensures Applications(org, xs, scores, now) == Applications(org, ys, scores, now)
  {
    OfFieldIgnoresOrder(xs, ys, ApplicationDeadline);
    OfFieldIgnoresOrder(xs, ys, ApplicationUrl);
    OfFieldIgnoresOrder(xs, ys, ApplicationOpen);
    BestIgnoresOrder(OfField(xs, ApplicationDeadline), OfField(ys, ApplicationDeadline), ByScore(scores));
    BestIgnoresOrder(OfField(xs, ApplicationUrl), OfField(ys, ApplicationUrl), ByScore(scores));
    BestIgnoresOrder(OfField(xs, ApplicationOpen), OfField(ys, ApplicationOpen), ByTime());
  }

  /** The pick for a field is one of its claims and has the largest key; there is none only when the field has no claim. */
  ghost predicate IsBestOf(pick: Option<Claim>, cs: seq<Claim>, field: ClaimField, key: Claim -> real) {
    match pick
    case None => forall c | c in cs :: c.field != field
    case Some(best) => best in cs && best.field == field && forall c | c in cs && c.field == field :: key(c) <= key(best)
  }

  lemma BestOfField(cs: seq<Claim>, field: ClaimField, key: Claim -> real)
    ensures IsBestOf(Best(OfField(cs, field), key), cs, field, key)
  {
    forall c
      ensures c in OfField(cs, field) <==> c in cs && c.field == field
    {
      InField(cs, field, c);
    }
    BestIsMax(OfField(cs, field), key);
  }

  /** What the picks are, without reference to sorting: best score, best score, newest. */
  lemma PicksAreBest(cs: seq<Claim>, scores: Scores)
    ensures IsBestOf(Pick(cs, scores).deadline, cs, ApplicationDeadline, ByScore(scores))
    ensures IsBestOf(Pick(cs, scores).url, cs, ApplicationUrl, ByScore(scores))
    ensures IsBestOf(Pick(cs, scores).open, cs, ApplicationOpen, ByTime())
  {
    BestOfField(cs, ApplicationDeadline, ByScore(scores));
    BestOfField(cs, ApplicationUrl, ByScore(scores));
    BestOfField(cs, ApplicationOpen, ByTime());
  }

  /** With distinct keys there is only one best claim, if any. */
  lemma BestIsUnique(cs: seq<Claim>, field: ClaimField, key: Claim -> real, pick: Option<Claim>)
    requires DistinctKeys(OfField(cs, field), key) && IsBestOf(pick, cs, field, key)
    ensures Best(OfField(cs, field), key) == pick
  {
    BestOfField(cs, field, key);
    var best := Best(OfField(cs, field), key);
    if best.Some? { InField(cs, field, best.value); }
    if pick.Some? { InField(cs, field, pick.value); }
  }

  /** The statement says that applications are closed and is no older than the deadline claim, if there is one. */
  predicate SaysClosed(d: Option<Claim>, o: Option<Claim>) {
    o.Some? && o.value.value == Flag(false) && (if d.Some? then o.value.time >= d.value.time else o.value.time >= 0)
  }

  /** The statement says that applications are open and is newer than the deadline claim, if there is one. */
  predicate SaysOpen(d: Option<Claim>, o: Option<Claim>) {
    o.Some? && o.value.value == Flag(true) && (if d.Some? then o.value.time > d.value.time else o.value.time > 0)
  }

  predicate DeadlineIsOver(d: Option<Claim>, now: int) {
    d.Some? && d.value.value.Text? && d.value.value.text != "" && d.value.value.time.Some? && d.value.value.time.value < now
  }

  function CitedId(c: Option<Claim>): seq<ClaimId> { if c.Some? && c.value.id != "" then [c.value.id] else [] }

  /** What `String` makes of a claim's value. */
  ghost predicate Prints(v: Value, s: string) {
    && (v.Text? ==> s == v.text) && (v == Flag(true) ==> s == "true") && (v == Flag(false) ==> s == "false")
    && (v == NullValue ==> s == "null") && (v.EventValue? ==> s == "[object Object]")
  }

  function ScoreOr0(scores: Scores, c: Option<Claim>): real { if c.Some? && c.value.id in scores then scores[c.value.id] else 0.0 }

  /**
   What the application says, field by field, where `d` is the deadline claim, `u` the link and
   `o` the newest statement, any of which may be missing: closed, or open without a deadline,
   if `o` says so in time; otherwise dated by `d` and stale once that deadline has passed.
   */
  ghost predicate TellsApplication(a: Opportunity, org: OrgId, d: Option<Claim>, u: Option<Claim>, o: Option<Claim>, scores: Scores, now: int) {
    && a.id == org + ":application" && a.org == org && a.kind == ApplicationKind && a.title == "Application"
    && a.startsAt == None && a.startsPrecision == None && !a.reviewed
    && (a.stale <==> SaysClosed(d, o) || (!SaysOpen(d, o) && DeadlineIsOver(d, now)))
    && (SaysOpen(d, o) || d.None? ==> a.deadlineAt == None && a.deadlinePrecision == None)
    && (!SaysOpen(d, o) && d.Some? ==> a.deadlineAt.Some? && Prints(d.value.value, a.deadlineAt.value) && a.deadlinePrecision == d.value.precision)
    && (a.url.Some? <==> u.Some?) && (u.Some? ==> Prints(u.value.value, a.url.value))
    && ScoreOr0(scores, d) <= a.confidence && ScoreOr0(scores, o) <= a.confidence && a.confidence in {ScoreOr0(scores, d), ScoreOr0(scores, o)}
    && a.sourceClaimIds == CitedId(d) + CitedId(u) + CitedId(o)
    && a.explanation == [if SaysOpen(d, o) then NewerSourceSaysOpen else if SaysClosed(d, o) then NewestSourceSaysClosed
                         else if DeadlineIsOver(d, now) then DeadlineIsPast else HighestConfidence]
  }

  lemma PicksAreTold(org: OrgId, p: Picks, scores: Scores, now: int)
    ensures TellsApplication(ApplicationOpportunity(org, p, scores, now), org, p.deadline, p.url, p.open, scores, now)
  {
    var a := ApplicationOpportunity(org, p, scores, now);
    assert Closed(p) == SaysClosed(p.deadline, p.open) && Reopened(p) == SaysOpen(p.deadline, p.open);
    assert p.deadline.Some? ==> Prints(p.deadline.value.value, AsText(p.deadline.value.value));
    assert p.url.Some? ==> Prints(p.url.value.value, AsText(p.url.value.value));
    hide AsText, Prints;
  }

  /** The application there is, or is not: it tells of the picks, ties included. */
  lemma ApplicationTells(org: OrgId, cs: seq<Claim>, scores: Scores, now: int)
    ensures
      var p, apps := Pick(cs, scores), Applications(org, cs, scores, now);
      && (p.deadline.None? && p.open.None? ==> apps == [])
      && (p.deadline.Some? || p.open.Some? ==> |apps| == 1 && TellsApplication(apps[0], org, p.deadline, p.url, p.open, scores, now))
  {
    PicksAreTold(org, Pick(cs, scores), scores, now);
    hide TellsApplication, ApplicationOpportunity, Pick;
  }

  /** With distinct scores and times, whichever claims are the best deadline, the best link and the newest statement. */
  lemma ClosedReopenedOrDated(org: OrgId, cs: seq<Claim>, scores: Scores, now: int, d: Option<Claim>, u: Option<Claim>, o: Option<Claim>)
    requires Unambiguous(cs, scores) && IsBestOf(d, cs, ApplicationDeadline, ByScore(scores))
    requires IsBestOf(u, cs, ApplicationUrl, ByScore(scores)) && IsBestOf(o, cs, ApplicationOpen, ByTime())
    ensures d.None? && o.None? ==> Applications(org, cs, scores, now) == []
    ensures d.Some? || o.Some? ==>
      |Applications(org, cs, scores, now)| == 1 && TellsApplication(Applications(org, cs, scores, now)[0], org, d, u, o, scores, now)
  {
    BestIsUnique(cs, ApplicationDeadline, ByScore(scores), d);
    BestIsUnique(cs, ApplicationUrl, ByScore(scores), u);
    BestIsUnique(cs, ApplicationOpen, ByTime(), o);
    ApplicationTells(org, cs, scores, now);
    hide TellsApplication, Applications, Best, IsBestOf;
  }

  /** The same opportunities, none of which has become fresh. */
  predicate Ages(before: seq<Opportunity>, after: seq<Opportunity>) {
    && |before| == |after|
    && forall i | 0 <= i < |before| :: before[i].id == after[i].id && (before[i].stale ==> after[i].stale)
  }

  lemma EventAges(org: OrgId, c: Claim, scores: Scores, now: int, later: int)
    requires now <= later
    ensures Ages(OneEvent(org, c, scores, now), OneEvent(org, c, scores, later))
  {
  }

  lemma {:induction false} EventsAge(org: OrgId, cs: seq<Claim>, scores: Scores, now: int, later: int)
    requires now <= later
    ensures Ages(Events(org, cs, scores, now), Events(org, cs, scores, later))
  {
    if cs != [] {
      EventsAge(org, cs[1..], scores, now, later);
      EventAges(org, cs[0], scores, now, later);
      hide EventOpportunity;
      AgesTogether(OneEvent(org, cs[0], scores, now), Events(org, cs[1..], scores, now),
                   OneEvent(org, cs[0], scores, later), Events(org, cs[1..], scores, later));
    }
  }

  lemma ApplicationAges(org: OrgId, cs: seq<Claim>, scores: Scores, now: int, later: int)
    requires now <= later
    ensures Ages(Applications(org, cs, scores, now), Applications(org, cs, scores, later))
  {
    var p := Pick(cs, scores);
    assert Stale(p, now) ==> Stale(p, later);
  }

  lemma AgesTogether(a: seq<Opportunity>, b: seq<Opportunity>, a': seq<Opportunity>, b': seq<Opportunity>)
    requires Ages(a, a') && Ages(b, b')
    ensures Ages(a + b, a' + b')
  {
  }

  /** For fixed claims and scores and no overrides an opportunity that is stale stays stale as time passes. */
  lemma StalenessNeverReverts(org: OrgId, cs: seq<Claim>, scores: Scores, now: int, later: int)
    requires now <= later
    ensures Ages(Resolve(org, cs, scores, [], now), Resolve(org, cs, scores, [], later))
  {
    ApplicationAges(org, cs, scores, now, later);
    EventsAge(org, OfField(cs, EventField), scores, now, later);
    AgesTogether(Applications(org, cs, scores, now), Events(org, OfField(cs, EventField), scores, now),
                 Applications(org, cs, scores, later), Events(org, OfField(cs, EventField), scores, later));
  }

  // Overrides.

  datatype PatchField = TitleField | DeadlineField | StartsField | UrlField | StaleField
  datatype FieldValue = TextValue(text: Option<string>) | FlagValue(flag: bool)

  function FieldOf(o: Opportunity, f: PatchField): FieldValue {
    match f
    case TitleField => TextValue(Some(o.title))
    case DeadlineField => TextValue(o.deadlineAt)
    case StartsField => TextValue(o.startsAt)
    case UrlField => TextValue(o.url)
    case StaleField => FlagValue(o.stale)
  }

  function PatchOf(p: Patch, f: PatchField): Option<FieldValue> {
    match f
    case TitleField => if p.title.Some? then Some(TextValue(p.title)) else None
    case DeadlineField => if p.deadlineAt.Some? then Some(TextValue(p.deadlineAt)) else None
    case StartsField => if p.startsAt.Some? then Some(TextValue(p.startsAt)) else None
    case UrlField => if p.url.Some? then Some(TextValue(p.url)) else None
    case StaleField => if p.stale.Some? then Some(FlagValue(p.stale.value)) else None
  }

  /** Override `k` is the last one, in creation order, that sets field `f` of opportunity `id`. */
  predicate LastToSet(vs: seq<Override>, id: string, f: PatchField, k: nat) {
    && k < |vs| && vs[k].opportunityId == id && PatchOf(vs[k].patch, f).Some?
    && forall j | k < j < |vs| :: vs[j].opportunityId != id || PatchOf(vs[j].patch, f).None?
  }

  predicate NeverSets(vs: seq<Override>, id: string, f: PatchField) {
    forall j | 0 <= j < |vs| :: vs[j].opportunityId != id || PatchOf(vs[j].patch, f).None?
  }

  /** Everything an override may not touch. */
  predicate SameButReviewed(a: Opportunity, b: Opportunity) {
    && a.id == b.id && a.org == b.org && a.kind == b.kind && a.confidence == b.confidence
    && a.sourceClaimIds == b.sourceClaimIds && a.deadlinePrecision == b.deadlinePrecision && a.startsPrecision == b.startsPrecision
  }

  lemma {:induction false} OverridesKeepShape(out: seq<Opportunity>, vs: seq<Override>)
    ensures |ApplyOverrides(out, vs)| == |out|
    ensures forall i | 0 <= i < |out| :: SameButReviewed(ApplyOverrides(out, vs)[i], out[i])
  {
    if vs != [] { OverridesKeepShape(out, vs[..|vs| - 1]); }
  }

  /** The opportunity an override reaches is the first one with its id. */
  predicate IsFirstWithId(out: seq<Opportunity>, i: nat) {
    i < |out| && forall j | 0 <= j < i :: out[j].id != out[i].id
  }

  lemma PatchedField(o: Opportunity, v: Override, f: PatchField)
    ensures FieldOf(Patched(o, v), f) == GetOr(PatchOf(v.patch, f), FieldOf(o, f))
  {
  }

  /** One override changes field `f` of position `i` only if it names that opportunity first and sets the field. */
  lemma OneOverride(out: seq<Opportunity>, v: Override, i: nat, f: PatchField)
    requires i < |out|
    ensures |ApplyOverride(out, v)| == |out|
    ensures FieldOf(ApplyOverride(out, v)[i], f) ==
      if IsFirstWithId(out, i) && v.opportunityId == out[i].id then GetOr(PatchOf(v.patch, f), FieldOf(out[i], f)) else FieldOf(out[i], f)
  {
    PatchedField(out[i], v, f);
  }

  lemma LastOverrideStep(out: seq<Opportunity>, vs: seq<Override>, i: nat, f: PatchField)
    requires i < |out| && vs != []
    ensures |ApplyOverrides(out, vs[..|vs| - 1])| == |ApplyOverrides(out, vs)| == |out|
    ensures FieldOf(ApplyOverrides(out, vs)[i], f) ==
      var before := FieldOf(ApplyOverrides(out, vs[..|vs| - 1])[i], f);
      if IsFirstWithId(out, i) && vs[|vs| - 1].opportunityId == out[i].id then GetOr(PatchOf(vs[|vs| - 1].patch, f), before) else before
  {
    var mid := ApplyOverrides(out, vs[..|vs| - 1]);
    OverridesKeepShape(out, vs[..|vs| - 1]);
    assert forall j | 0 <= j < |out| :: SameButReviewed(mid[j], out[j]);
    assert IsFirstWithId(mid, i) == IsFirstWithId(out, i);
    OneOverride(mid, vs[|vs| - 1], i, f);
  }

  /** A patched field ends as the last override in creation order that sets it. */
  lemma {:induction false} LastOverrideWins(out: seq<Opportunity>, vs: seq<Override>, i: nat, f: PatchField, k: nat)
    requires IsFirstWithId(out, i) && LastToSet(vs, out[i].id, f, k)
    ensures |ApplyOverrides(out, vs)| == |out|
    ensures Some(FieldOf(ApplyOverrides(out, vs)[i], f)) == PatchOf(vs[k].patch, f)
    decreases |vs|
  {
    LastOverrideStep(out, vs, i, f);
    if k < |vs| - 1 {
      assert LastToSet(vs[..|vs| - 1], out[i].id, f, k);
      LastOverrideWins(out, vs[..|vs| - 1], i, f, k);
    }
  }

  /** A field that no override sets, or of an opportunity no override reaches, stays as it was resolved. */
  lemma {:induction false} UnsetFieldStays(out: seq<Opportunity>, vs: seq<Override>, i: nat, f: PatchField)
    requires i < |out| && (NeverSets(vs, out[i].id, f) || !IsFirstWithId(out, i))
    ensures |ApplyOverrides(out, vs)| == |out|
    ensures FieldOf(ApplyOverrides(out, vs)[i], f) == FieldOf(out[i], f)
    decreases |vs|
  {
    if vs != [] {
      LastOverrideStep(out, vs, i, f);
      UnsetFieldStays(out, vs[..|vs| - 1], i, f);
    }
  }

  /** The reasons of the overrides that name the opportunity, in creation order. */
  function Reasons(vs: seq<Override>, id: string): seq<Note> {
    if vs == [] then []
    else Reasons(vs[..|vs| - 1], id) + if vs[|vs| - 1].opportunityId == id then [ReviewedOverride(vs[|vs| - 1].reason)] else []
  }

  /** Every override leaves its reason on the opportunity that it reaches, and marks it as reviewed. */
  lemma {:induction false} ReviewsAreRecorded(out: seq<Opportunity>, vs: seq<Override>, i: nat)
    requires i < |out|
    ensures |ApplyOverrides(out, vs)| == |out|
    ensures
      var o, reasons := ApplyOverrides(out, vs)[i], if IsFirstWithId(out, i) then Reasons(vs, out[i].id) else [];
      o.explanation == out[i].explanation + reasons && (o.reviewed <==> out[i].reviewed || reasons != [])
    decreases |vs|
  {
    if vs != [] {
      var before, last := vs[..|vs| - 1], vs[|vs| - 1];
      ReviewsAreRecorded(out, before, i);
      OverridesKeepShape(out, before);
      var mid := ApplyOverrides(out, before);
      assert forall j | 0 <= j < |out| :: SameButReviewed(mid[j], out[j]);
      assert IsFirstWithId(mid, i) == IsFirstWithId(out, i);
      assert Find(mid, last.opportunityId) == i <==> IsFirstWithId(out, i) && last.opportunityId == out[i].id;
    }
  }

  // Citations and confidence.

  predicate Cites(cs: seq<Claim>, id: ClaimId) { exists c :: c in cs && c.id == id }

  ghost predicate IsEventOf(o: Opportunity, org: OrgId, es: seq<Claim>, scores: Scores, now: int) {
    exists c :: c in es && c.value.EventValue? && o == EventOpportunity(org, c, scores, now)
  }

  lemma {:induction false} EventsCite(org: OrgId, es: seq<Claim>, scores: Scores, now: int, o: Opportunity)
    requires o in Events(org, es, scores, now)
    ensures IsEventOf(o, org, es, scores, now)
  {
    if es[0].value.EventValue? && o == EventOpportunity(org, es[0], scores, now) {
    } else {
      EventsCite(org, es[1..], scores, now, o);
      var c :| c in es[1..] && c.value.EventValue? && o == EventOpportunity(org, c, scores, now);
      assert c in es;
    }
  }

  /** A resolved opportunity belongs to the organization, cites only the given claims and its confidence is in 0..1. */
  ghost predicate WellFounded(o: Opportunity, org: OrgId, cs: seq<Claim>) {
    && o.org == org && (forall id | id in o.sourceClaimIds :: Cites(cs, id))
    && 0.0 <= o.confidence <= 1.0
  }

  lemma PickedIsCited(pick: Option<Claim>, cs: seq<Claim>, field: ClaimField, key: Claim -> real)
    requires IsBestOf(pick, cs, field, key)
    ensures forall id | id in IdOf(pick) :: Cites(cs, id)
  {
  }

  lemma PicksWellFounded(org: OrgId, p: Picks, cs: seq<Claim>, scores: Scores, now: int)
    requires forall id | id in scores :: 0.0 <= scores[id] <= 1.0
    requires forall id | id in IdOf(p.deadline) + IdOf(p.url) + IdOf(p.open) :: Cites(cs, id)
    ensures WellFounded(ApplicationOpportunity(org, p, scores, now), org, cs)
  {
    assert 0.0 <= OptionalScore(scores, p.deadline) <= 1.0 && 0.0 <= OptionalScore(scores, p.open) <= 1.0;
  }

  lemma ApplicationWellFounded(org: OrgId, cs: seq<Claim>, scores: Scores, now: int)
    requires forall id | id in scores :: 0.0 <= scores[id] <= 1.0
    ensures forall o | o in Applications(org, cs, scores, now) :: WellFounded(o, org, cs)
  {
    var p := Pick(cs, scores);
    PicksAreBest(cs, scores);
    PickedIsCited(p.deadline, cs, ApplicationDeadline, ByScore(scores));
    PickedIsCited(p.url, cs, ApplicationUrl, ByScore(scores));
    PickedIsCited(p.open, cs, ApplicationOpen, ByTime());
    PicksWellFounded(org, p, cs, scores, now);
  }

  lemma EventsWellFounded(org: OrgId, cs: seq<Claim>, scores: Scores, now: int)
    requires forall id | id in scores :: 0.0 <= scores[id] <= 1.0
    ensures forall o | o in Events(org, OfField(cs, EventField), scores, now) :: WellFounded(o, org, cs)
  {
    var es := OfField(cs, EventField);
    forall o | o in Events(org, es, scores, now)
      ensures WellFounded(o, org, cs)
    {
      EventsCite(org, es, scores, now, o);
      var c :| c in es && c.value.EventValue? && o == EventOpportunity(org, c, scores, now);
      InField(cs, EventField, c);
    }
  }

  lemma ResolvedIsWellFounded(org: OrgId, cs: seq<Claim>, scores: Scores, overrides: seq<Override>, now: int)
    requires forall id | id in scores :: 0.0 <= scores[id] <= 1.0
    ensures forall o | o in Resolve(org, cs, scores, overrides, now) :: WellFounded(o, org, cs)
  {
    var whole := Applications(org, cs, scores, now) + Events(org, OfField(cs, EventField), scores, now);
    ApplicationWellFounded(org, cs, scores, now);
    EventsWellFounded(org, cs, scores, now);
    OverridesKeepShape(whole, overrides);
    var out := Resolve(org, cs, scores, overrides, now);
    forall o | o in out
      ensures WellFounded(o, org, cs)
    {
      var i :| 0 <= i < |out| && out[i] == o;
      assert SameButReviewed(out[i], whole[i]) && whole[i] in whole;
    }
  }
}
