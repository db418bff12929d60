/**
 The opportunities table of one tenant and the write that replaces an
 organization's opportunities.  Rows are keyed by opportunity id.
 */
module Opportunities {
  import opened Prelude
  import opened Jobs
  import opened Resolver

  type Table = map<string, Opportunity>

  function WithoutOrg(table: Table, org: OrgId): Table {
    map id | id in table && table[id].org != org :: table[id]
  }

  /** Inserts in order and stops at the first id that is already there. */
  function InsertAll(table: Table, out: seq<Opportunity>): Table
    decreases out
  {
    if out == [] || out[0].id in table then table else InsertAll(table[out[0].id := out[0]], out[1..])
  }

  predicate Inserts(table: Table, out: seq<Opportunity>)
    decreases out
  {
    out == [] || (out[0].id !in table && Inserts(table[out[0].id := out[0]], out[1..]))
  }

  /** The table after replaceOpportunities, whether or not it ran through. */
  function Replaced(table: Table, org: OrgId, out: seq<Opportunity>): Table {
    InsertAll(WithoutOrg(table, org), out)
  }

  predicate ReplaceSucceeds(table: Table, org: OrgId, out: seq<Opportunity>) {
    Inserts(WithoutOrg(table, org), out)
  }

  class OpportunityStore {
    var table: Table

    /** `ok` is false where the insert hits the primary key and the source throws. */
    method ReplaceOpportunities(org: OrgId, out: seq<Opportunity>) returns (ok: bool)
      modifies this
      ensures table == Replaced(old(table), org, out)
      ensures ok <==> ReplaceSucceeds(old(table), org, out)
      ensures
        var kept := map id | id in old(table) && old(table)[id].org != org :: old(table)[id];
        exists n: nat :: GotThrough(kept, out, n) && ConsistsOf(table, kept, out[..n]) && (ok <==> n == |out|)
    {
      ghost var _ := InsertedPrefix(WithoutOrg(table, org), out);
      hide GotThrough, ConsistsOf;
      table := WithoutOrg(table, org);
      var i := 0;
      while i < |out|
        invariant i <= |out|
        invariant InsertAll(table, out[i..]) == Replaced(old(table), org, out)
        invariant Inserts(table, out[i..]) <==> ReplaceSucceeds(old(table), org, out)
      {
        assert out[i..][1..] == out[i + 1..];
        if out[i].id in table { return false; }
        table := table[out[i].id := out[i]];
        i := i + 1;
      }
      ok := true;
    }
  }

  predicate DistinctIds(out: seq<Opportunity>) {
    forall a, b | 0 <= a < b < |out| :: out[a].id != out[b].id
  }

  predicate FreshIds(table: Table, out: seq<Opportunity>) {
    forall o | o in out :: o.id !in table
  }

  lemma {:induction false} InsertsExactly(table: Table, out: seq<Opportunity>)
    ensures Inserts(table, out) <==> DistinctIds(out) && FreshIds(table, out)
    decreases out
  {
    if out != [] {
      var next := table[out[0].id := out[0]];
      InsertsExactly(next, out[1..]);
      if DistinctIds(out) && FreshIds(table, out) {
        forall o | o in out[1..]
          ensures o.id !in next
        {
          var b :| 0 <= b < |out[1..]| && out[1..][b] == o;
          assert out[b + 1] == o;
        }
        assert DistinctIds(out[1..]);
      }
      if Inserts(table, out) {
        forall a, b | 0 <= a < b < |out|
          ensures out[a].id != out[b].id
        {
          assert out[b] == out[1..][b - 1];
          if a > 0 { assert out[a] == out[1..][a - 1]; }
        }
        forall o | o in out
          ensures o.id !in table
        {
          if o != out[0] { assert o in out[1..]; }
        }
      }
    }
  }

  /** The write succeeds exactly when the resolved ids are distinct and no other organization has one of them. */
  lemma ReplaceSucceedsExactly(table: Table, org: OrgId, out: seq<Opportunity>)
    ensures ReplaceSucceeds(table, org, out) <==>
      DistinctIds(out) && forall o | o in out :: o.id in table ==> table[o.id].org == org
  {
    InsertsExactly(WithoutOrg(table, org), out);
  }

  /** The first `n` opportunities could be inserted beside the rows that stay, and the next one, if any, could not. */
  ghost predicate GotThrough(kept: Table, out: seq<Opportunity>, n: nat) {
    && n <= |out| && DistinctIds(out[..n]) && FreshIds(kept, out[..n])
    && (n < |out| ==> out[n].id in kept || exists i | 0 <= i < n :: out[i].id == out[n].id)
  }

  /** The table holds the rows that stay and the given opportunities, each under its id, and nothing else. */
  ghost predicate ConsistsOf(table: Table, kept: Table, inserted: seq<Opportunity>) {
    && (forall id :: id in table <==> id in kept || exists i | 0 <= i < |inserted| :: inserted[i].id == id)
    && (forall id | id in kept :: id in table && table[id] == kept[id])
    && (forall i | 0 <= i < |inserted| :: inserted[i].id in table && table[inserted[i].id] == inserted[i])
  }

  lemma InsertOne(kept: Table, o: Opportunity, rest: seq<Opportunity>, after: Table)
    requires o.id !in kept && DistinctIds([o] + rest) && ConsistsOf(after, kept[o.id := o], rest)
    ensures ConsistsOf(after, kept, [o] + rest)
  {
    var all := [o] + rest;
    forall id
      ensures id in after <==> id in kept || exists i | 0 <= i < |all| :: all[i].id == id
    {
      assert all[0] == o;
      if exists i | 0 <= i < |rest| :: rest[i].id == id {
        var i :| 0 <= i < |rest| && rest[i].id == id;
        assert all[i + 1].id == id;
      }
    }
    assert forall i | 0 <= i < |rest| :: all[i + 1] == rest[i];
    assert forall i | 0 < i < |all| :: all[i] == rest[i - 1];
  }

  lemma GotOneThrough(kept: Table, out: seq<Opportunity>, n: nat)
    requires out != [] && out[0].id !in kept && GotThrough(kept[out[0].id := out[0]], out[1..], n)
    ensures GotThrough(kept, out, n + 1) && n + 1 <= |out| && DistinctIds(out[..n + 1])
  {
    var next, rest := kept[out[0].id := out[0]], out[1..];
    assert forall i | 0 < i <= n :: out[i] == rest[i - 1];
    forall i | 0 < i <= n
      ensures out[i].id !in next
    {
      assert rest[..n][i - 1] == out[i];
    }
    forall a, b | 0 <= a < b < n + 1
      ensures out[a].id != out[b].id
    {
      if a > 0 { assert rest[..n][a - 1].id != rest[..n][b - 1].id; }
    }
    forall o | o in out[..n + 1]
      ensures o.id !in kept
    {
      var i :| 0 <= i < n + 1 && out[i] == o;
    }
    if n + 1 < |out| && out[n + 1].id !in kept {
      assert rest[n] == out[n + 1];
      if out[n + 1].id !in next {
        var i :| 0 <= i < n && rest[i].id == rest[n].id;
        assert out[i + 1].id == out[n + 1].id;
      }
    }
  }

  lemma NothingInserted(kept: Table, out: seq<Opportunity>)
    requires out == [] || out[0].id in kept
    ensures GotThrough(kept, out, 0) && ConsistsOf(kept, kept, out[..0])
  {
  }

  lemma {:induction false} InsertedPrefix(kept: Table, out: seq<Opportunity>) returns (n: nat)
    ensures GotThrough(kept, out, n) && ConsistsOf(InsertAll(kept, out), kept, out[..n]) && (Inserts(kept, out) <==> n == |out|)
    decreases out
  {
    hide ConsistsOf, GotThrough, DistinctIds;
    if out == [] || out[0].id in kept {
      n := 0;
      NothingInserted(kept, out);
    } else {
      var next := kept[out[0].id := out[0]];
      var m := InsertedPrefix(next, out[1..]);
      n := m + 1;
      GotOneThrough(kept, out, m);
      assert out[..n] == [out[0]] + out[1..][..m];
      InsertOne(kept, out[0], out[1..][..m], InsertAll(next, out[1..]));
    }
  }

  // ------------------------------------------------- the condition on the claims

  predicate IsEvent(c: Claim) { c.field == EventField && c.value.EventValue? }

  predicate IsAboutApplication(c: Claim) { c.field == ApplicationDeadline || c.field == ApplicationOpen }

  /** No two event claims spell the same id. */
  predicate DistinctEvents(org: OrgId, cs: seq<Claim>) {
    forall i, j | 0 <= i < j < |cs| && IsEvent(cs[i]) && IsEvent(cs[j]) :: EventId(org, cs[i].value) != EventId(org, cs[j].value)
  }

  predicate FreeFor(table: Table, org: OrgId, id: string) { id in table ==> table[id].org == org }

  /** No other organization of the tenant has stored an opportunity under an id that the claims will get. */
  predicate IdsAreFree(table: Table, org: OrgId, cs: seq<Claim>) {
    forall c | c in cs ::
      (IsAboutApplication(c) ==> FreeFor(table, org, ApplicationId(org))) && (IsEvent(c) ==> FreeFor(table, org, EventId(org, c.value)))
  }

  function Ids(out: seq<Opportunity>): (ids: seq<string>)
    ensures |ids| == |out| && forall i | 0 <= i < |out| :: ids[i] == out[i].id
  {
    if out == [] then [] else [out[0].id] + Ids(out[1..])
  }

  function EventIds(org: OrgId, cs: seq<Claim>): seq<string> {
    if cs == [] then [] else (if IsEvent(cs[0]) then [EventId(org, cs[0].value)] else []) + EventIds(org, cs[1..])
  }

  predicate NoRepeats(ids: seq<string>) { forall a, b | 0 <= a < b < |ids| :: ids[a] != ids[b] }

  lemma IdsOfBoth(a: seq<Opportunity>, b: seq<Opportunity>)
    ensures Ids(a + b) == Ids(a) + Ids(b)
  {
    hide Ids;
  }

  lemma IdOfOneEvent(org: OrgId, c: Claim, scores: Scores, now: int)
    ensures Ids(OneEvent(org, c, scores, now)) == if c.value.EventValue? then [EventId(org, c.value)] else []
  {
  }

  lemma {:induction false} IdsOfEvents(org: OrgId, cs: seq<Claim>, scores: Scores, now: int)
    ensures Ids(Events(org, OfField(cs, EventField), scores, now)) == EventIds(org, cs)
  {
    if cs != [] {
      var c, rest := cs[0], OfField(cs[1..], EventField);
      IdsOfEvents(org, cs[1..], scores, now);
      if c.field == EventField {
        assert OfField(cs, EventField) == [c] + rest;
        IdOfOneEvent(org, c, scores, now);
        IdsOfBoth(OneEvent(org, c, scores, now), Events(org, rest, scores, now));
      } else {
        assert OfField(cs, EventField) == rest && EventIds(org, cs) == EventIds(org, cs[1..]);
      }
    }
  }

  lemma {:induction false} EventIdsAre(org: OrgId, cs: seq<Claim>, id: string)
    ensures id in EventIds(org, cs) <==> exists c :: c in cs && IsEvent(c) && EventId(org, c.value) == id
  {
    if cs != [] {
      EventIdsAre(org, cs[1..], id);
      assert forall c :: c in cs <==> c == cs[0] || c in cs[1..];
    }
  }

  lemma PrependNoRepeats(id: string, rest: seq<string>)
    ensures NoRepeats([id] + rest) <==> NoRepeats(rest) && id !in rest
  {
    var all := [id] + rest;
    if NoRepeats(all) {
      forall a, b | 0 <= a < b < |rest|
        ensures rest[a] != rest[b]
      {
        assert all[a + 1] != all[b + 1];
      }
      forall b | 0 <= b < |rest|
        ensures rest[b] != id
      {
        assert all[0] != all[b + 1];
      }
    }
  }

  lemma DistinctEventsStep(org: OrgId, cs: seq<Claim>)
    requires cs != []
    ensures DistinctEvents(org, cs) <==>
      DistinctEvents(org, cs[1..]) && (IsEvent(cs[0]) ==> forall c | c in cs[1..] && IsEvent(c) :: EventId(org, c.value) != EventId(org, cs[0].value))
  {
    var rest := cs[1..];
    if DistinctEvents(org, cs) {
      forall i, j | 0 <= i < j < |rest| && IsEvent(rest[i]) && IsEvent(rest[j])
        ensures EventId(org, rest[i].value) != EventId(org, rest[j].value)
      {
        assert cs[i + 1] == rest[i] && cs[j + 1] == rest[j];
      }
      forall c | c in rest && IsEvent(c) && IsEvent(cs[0])
        ensures EventId(org, c.value) != EventId(org, cs[0].value)
      {
        var j :| 0 <= j < |rest| && rest[j] == c;
        assert cs[j + 1] == c;
      }
    }
    assert forall j | 1 <= j < |cs| :: cs[j] == rest[j - 1];
  }

  lemma {:induction false} DistinctEventIds(org: OrgId, cs: seq<Claim>)
    ensures NoRepeats(EventIds(org, cs)) <==> DistinctEvents(org, cs)
  {
    if cs != [] {
      DistinctEventIds(org, cs[1..]);
      DistinctEventsStep(org, cs);
      if IsEvent(cs[0]) {
        var id := EventId(org, cs[0].value);
        PrependNoRepeats(id, EventIds(org, cs[1..]));
        EventIdsAre(org, cs[1..], id);
      } else {
        assert EventIds(org, cs) == EventIds(org, cs[1..]);
      }
    }
  }

  lemma ApplicationIsNoEvent(org: OrgId, v: Value)
    requires v.EventValue?
    ensures EventId(org, v) != ApplicationId(org)
  {
    assert EventId(org, v)[|org| + 1] == 'e';
    assert ApplicationId(org)[|org| + 1] == 'a';
  }

  lemma ApplicationExists(org: OrgId, cs: seq<Claim>, scores: Scores, now: int)
    ensures Ids(Applications(org, cs, scores, now)) == if exists c :: c in cs && IsAboutApplication(c) then [ApplicationId(org)] else []
  {
    PicksAreBest(cs, scores);
  }

  /** The ids of the resolved opportunities, read off the claims. */
  function ResolvedIds(org: OrgId, cs: seq<Claim>): seq<string> {
    (if exists c | c in cs :: IsAboutApplication(c) then [ApplicationId(org)] else []) + EventIds(org, cs)
  }

  lemma ResolvedIdsAre(org: OrgId, cs: seq<Claim>, scores: Scores, overrides: seq<Override>, now: int)
    ensures Ids(Resolve(org, cs, scores, overrides, now)) == ResolvedIds(org, cs)
  {
    var apps, events := Applications(org, cs, scores, now), Events(org, OfField(cs, EventField), scores, now);
    ApplicationExists(org, cs, scores, now);
    IdsOfEvents(org, cs, scores, now);
    OverridesKeepShape(apps + events, overrides);
    var out := Resolve(org, cs, scores, overrides, now);
    forall i | 0 <= i < |out|
      ensures out[i].id == ResolvedIds(org, cs)[i]
    {
      assert SameButReviewed(out[i], (apps + events)[i]);
      assert i < |apps| ==> apps[i].id == Ids(apps)[i];
      assert i >= |apps| ==> events[i - |apps|].id == Ids(events)[i - |apps|];
    }
  }

  lemma ResolvedIdsDistinct(org: OrgId, cs: seq<Claim>)
    ensures NoRepeats(ResolvedIds(org, cs)) <==> DistinctEvents(org, cs)
  {
    DistinctEventIds(org, cs);
    PrependNoRepeats(ApplicationId(org), EventIds(org, cs));
    EventIdsAre(org, cs, ApplicationId(org));
    forall c | c in cs && IsEvent(c)
      ensures EventId(org, c.value) != ApplicationId(org)
    {
      ApplicationIsNoEvent(org, c.value);
    }
    assert [] + EventIds(org, cs) == EventIds(org, cs);
  }

  lemma ResolvedIdsFree(table: Table, org: OrgId, cs: seq<Claim>)
    ensures (forall id | id in ResolvedIds(org, cs) :: FreeFor(table, org, id)) <==> IdsAreFree(table, org, cs)
  {
    forall id
      ensures id in EventIds(org, cs) <==> exists c :: c in cs && IsEvent(c) && EventId(org, c.value) == id
    {
      EventIdsAre(org, cs, id);
    }
    if forall id | id in ResolvedIds(org, cs) :: FreeFor(table, org, id) {
      forall c | c in cs
        ensures IsAboutApplication(c) ==> FreeFor(table, org, ApplicationId(org))
        ensures IsEvent(c) ==> FreeFor(table, org, EventId(org, c.value))
      {
        if IsAboutApplication(c) { assert ApplicationId(org) in ResolvedIds(org, cs); }
        if IsEvent(c) { assert EventId(org, c.value) in EventIds(org, cs); }
      }
    }
  }

  lemma IdsDecide(table: Table, org: OrgId, out: seq<Opportunity>)
    ensures DistinctIds(out) <==> NoRepeats(Ids(out))
    ensures (forall o | o in out :: FreeFor(table, org, o.id)) <==> (forall id | id in Ids(out) :: FreeFor(table, org, id))
  {
    hide Ids;
    forall id | id in Ids(out)
      ensures exists o :: o in out && o.id == id
    {
      var i :| 0 <= i < |out| && Ids(out)[i] == id;
      assert out[i] in out;
    }
    forall o | o in out
      ensures o.id in Ids(out)
    {
      var i :| 0 <= i < |out| && out[i] == o;
      assert Ids(out)[i] == o.id;
    }
  }

  /**
   When a resolve can be stored, in terms of what it is given: exactly when the event claims
   spell distinct ids and no other organization of the tenant has one of the ids.  Scores,
   overrides and time play no part.
   */
  lemma ResolveStoresExactly(table: Table, org: OrgId, cs: seq<Claim>, scores: Scores, overrides: seq<Override>, now: int)
    ensures ReplaceSucceeds(table, org, Resolve(org, cs, scores, overrides, now)) <==> DistinctEvents(org, cs) && IdsAreFree(table, org, cs)
  {
    hide Resolve, ReplaceSucceeds, DistinctIds, NoRepeats, Ids, ResolvedIds, DistinctEvents, IdsAreFree;
    var out := Resolve(org, cs, scores, overrides, now);
    ResolvedIdsAre(org, cs, scores, overrides, now);
    ResolvedIdsDistinct(org, cs);
    ResolvedIdsFree(table, org, cs);
    ReplaceSucceedsExactly(table, org, out);
    IdsDecide(table, org, out);
  }

  /** Wherever they stand among the claims, two events that spell the same id make every write of the organization fail. */
  lemma SameEventTwiceFails(table: Table, org: OrgId, cs: seq<Claim>, scores: Scores, overrides: seq<Override>, now: int, i: nat, j: nat)
    requires i < j < |cs| && IsEvent(cs[i]) && IsEvent(cs[j])
    requires EventId(org, cs[i].value) == EventId(org, cs[j].value)
    ensures !ReplaceSucceeds(table, org, Resolve(org, cs, scores, overrides, now))
  {
    ResolveStoresExactly(table, org, cs, scores, overrides, now);
  }

  /** Equal title and start are not needed: the id joins them with a colon, and a missing title reads "undefined". */
  lemma DifferentEventsCollide(org: OrgId)
    ensures
      var a := EventValue(Some("a:b"), Some("c"), None, None, None);
      var b := EventValue(Some("a"), Some("b:c"), None, None, None);
      a != b && EventId(org, a) == EventId(org, b)
    ensures
      var a := EventValue(None, None, None, None, None);
      var b := EventValue(Some("undefined"), None, None, None, None);
      a != b && EventId(org, a) == EventId(org, b)
  {
    assert "a:b" + ":" + "c" == "a" + ":" + "b:c";
    assert org + ":event:" + "a:b" + ":" + "c" == org + ":event:" + ("a:b" + ":" + "c");
    assert org + ":event:" + "a" + ":" + "b:c" == org + ":event:" + ("a" + ":" + "b:c");
  }

  lemma {:induction false} InsertedRows(table: Table, out: seq<Opportunity>, id: string)
    ensures id in InsertAll(table, out) ==> (id in table && InsertAll(table, out)[id] == table[id]) || InsertAll(table, out)[id] in out
    ensures id in table ==> id in InsertAll(table, out) && InsertAll(table, out)[id] == table[id]
    decreases out
  {
    if out != [] && out[0].id !in table {
      InsertedRows(table[out[0].id := out[0]], out[1..], id);
    }
  }

  /** After the write, complete or cut short, the organization's rows all come from the new list and other rows are untouched. */
  lemma ReplacedRows(table: Table, org: OrgId, out: seq<Opportunity>, id: string)
    requires forall o | o in out :: o.org == org
    ensures id in Replaced(table, org, out) && Replaced(table, org, out)[id].org == org ==> Replaced(table, org, out)[id] in out
    ensures id in table && table[id].org != org ==> id in Replaced(table, org, out) && Replaced(table, org, out)[id] == table[id]
    ensures id in Replaced(table, org, out) && Replaced(table, org, out)[id].org != org ==> id in table && table[id] == Replaced(table, org, out)[id]
  {
    InsertedRows(WithoutOrg(table, org), out, id);
  }

  lemma {:induction false} AllInserted(table: Table, out: seq<Opportunity>, o: Opportunity)
    requires Inserts(table, out) && o in out
    ensures o.id in InsertAll(table, out) && InsertAll(table, out)[o.id] == o
    decreases out
  {
    var next := table[out[0].id := out[0]];
    if o == out[0] {
      InsertedRows(next, out[1..], o.id);
    } else {
      AllInserted(next, out[1..], o);
    }
  }

  /** A write that ran through stores exactly the new list, so running it again changes nothing. */
  lemma ReplaceIsIdempotent(table: Table, org: OrgId, out: seq<Opportunity>)
    requires (forall o | o in out :: o.org == org) && ReplaceSucceeds(table, org, out)
    ensures ReplaceSucceeds(Replaced(table, org, out), org, out)
    ensures Replaced(Replaced(table, org, out), org, out) == Replaced(table, org, out)
    ensures forall o | o in out :: o.id in Replaced(table, org, out) && Replaced(table, org, out)[o.id] == o
  {
    var once := Replaced(table, org, out);
    forall o | o in out
      ensures o.id in once && once[o.id] == o
    {
      AllInserted(WithoutOrg(table, org), out, o);
    }
    forall id
      ensures id in WithoutOrg(once, org) <==> id in WithoutOrg(table, org)
      ensures id in WithoutOrg(once, org) ==> WithoutOrg(once, org)[id] == WithoutOrg(table, org)[id]
    {
      ReplacedRows(table, org, out, id);
    }
    assert WithoutOrg(once, org) == WithoutOrg(table, org);
  }

  /** The organization's stored rows depend on the claims, scores, overrides and time alone, not on what was stored before. */
  lemma ReResolving(table: Table, other: Table, org: OrgId, cs: seq<Claim>, scores: Scores, overrides: seq<Override>, now: int, id: string)
    requires forall c | c in scores :: 0.0 <= scores[c] <= 1.0
    requires ReplaceSucceeds(table, org, Resolve(org, cs, scores, overrides, now))
    requires ReplaceSucceeds(other, org, Resolve(org, cs, scores, overrides, now))
    ensures
      var out := Resolve(org, cs, scores, overrides, now);
      var stored, stored' := Replaced(table, org, out), Replaced(other, org, out);
      && Replaced(stored, org, out) == stored
      && (id in stored && stored[id].org == org ==> id in stored' && stored'[id] == stored[id])
  {
    var out := Resolve(org, cs, scores, overrides, now);
    ResolvedIsWellFounded(org, cs, scores, overrides, now);
    ReplaceIsIdempotent(table, org, out);
    ReplaceIsIdempotent(other, org, out);
    var stored := Replaced(table, org, out);
    if id in stored && stored[id].org == org {
      ReplacedRows(table, org, out, id);
      InsertedKeepId(WithoutOrg(table, org), out, id);
    }
  }

  lemma {:induction false} InsertedKeepId(table: Table, out: seq<Opportunity>, id: string)
    requires id in InsertAll(table, out) && id !in table
    ensures InsertAll(table, out)[id].id == id
    decreases out
  {
    var next := table[out[0].id := out[0]];
    if id in next {
      InsertedRows(next, out[1..], id);
    } else {
      InsertedKeepId(next, out[1..], id);
    }
  }
}
