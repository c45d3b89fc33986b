/**
 * The trace ingestion endpoint (`demo-ui/src/app/api/v1/traces/route.ts`): it walks an
 * OTLP/HTTP JSON trace export (the JSON encoding of the OpenTelemetry Protocol's
 * `ExportTraceServiceRequest`), `resourceSpans`, then `scopeSpans`, then `spans`, turns
 * every span into one flat commit trace and adds it to the store, in nesting order.
 *
 * The request body arrives already decoded (`Body`); JSON text that does not parse is
 * `Malformed`. Fields the code reads with `?.` or `|| []` are `Option`s. The clock is a
 * parameter: `clock(k)` is the reading (`Date.now()` and `new Date().toISOString()`)
 * taken while building the `k`-th trace of the request.
 */
module OtlpIngest {
  import opened Wrappers
  import opened Text
  import TraceStore

  /** An attribute value; the code reads only these two alternatives, both as text. */
  datatype AnyValue = AnyValue(stringValue: Option<string>, intValue: Option<string>)

  datatype Attribute = Attribute(key: string, value: Option<AnyValue>)

  datatype Span = Span(traceId: string, spanId: string, name: string, attributes: Option<seq<Attribute>>)

  datatype ScopeSpans = ScopeSpans(spans: Option<seq<Span>>)

  datatype Resource = Resource(attributes: Option<seq<Attribute>>)

  datatype ResourceSpans = ResourceSpans(resource: Option<Resource>, scopeSpans: Option<seq<ScopeSpans>>)

  datatype Payload = Payload(resourceSpans: Option<seq<ResourceSpans>>)

  /** What `request.json()` produced: a payload, or a parse failure. */
  datatype Body = Malformed | Decoded(payload: Payload)

  /** One clock reading: milliseconds since the epoch and its ISO-8601 text. */
  datatype Stamp = Stamp(epochMillis: nat, iso: string)

  datatype ResponseBody = StatusOk | Error(error: string)

  datatype Response = Response(status: nat, body: ResponseBody)

  const RepoKey := "vcs.repository.name"
  const CommitIdKey := "vcs.commit.id"
  const CommitShortKey := "vcs.commit.id.short"
  const MessageKey := "vcs.commit.message"
  const AuthorKey := "vcs.commit.author.name"
  const EmailKey := "vcs.commit.author.email"
  const BranchKey := "vcs.branch"
  const AiStatsKey := "git.ai.stats"

  /** `attrs.find(a => a.key === key)`: the first attribute with the key. */
  function FindAttribute(attrs: seq<Attribute>, key: string): (r: Option<Attribute>)
    ensures r.None? <==> forall a :: a in attrs ==> a.key != key
    ensures r.Some? ==> r.value in attrs && r.value.key == key
  {
    if attrs == [] then None
    else if attrs[0].key == key then Some(attrs[0])
    else FindAttribute(attrs[1..], key)
  }

  /** `v?.stringValue || v?.intValue || ''`: an empty string counts as absent. */
  function ValueText(v: Option<AnyValue>): (r: string)
    ensures v.None? ==> r == ""
    ensures v.Some? && v.value.stringValue.Some? && v.value.stringValue.value != "" ==>
              r == v.value.stringValue.value
    ensures v.Some? && v.value.stringValue.GetOr("") == "" && v.value.intValue.Some? &&
            v.value.intValue.value != "" ==>
              r == v.value.intValue.value
    ensures v.Some? && v.value.stringValue.GetOr("") == "" && v.value.intValue.GetOr("") == "" ==> r == ""
    ensures r != "" ==>
              (v.Some? &&
               (v.value.stringValue == Some(r) ||
                (v.value.intValue == Some(r) && v.value.stringValue.GetOr("") == "")))
  {
    match v
    case None => ""
    case Some(AnyValue(s, n)) =>
      if s.Some? && s.value != "" then s.value
      else if n.Some? && n.value != "" then n.value
      else ""
  }

  /** `getAttribute`: the text of the first attribute with the key, `''` when there is none. */
  function GetAttribute(attrs: Option<seq<Attribute>>, key: string): (r: string)
    ensures attrs.None? ==> r == ""
    ensures attrs.Some? && (forall a :: a in attrs.value ==> a.key != key) ==> r == ""
    ensures r != "" ==>
              (attrs.Some? && exists a :: a in attrs.value && a.key == key && r == ValueText(a.value))
  {
    match attrs
    case None => ""
    case Some(list) =>
      match FindAttribute(list, key)
      case None => ""
      case Some(a) => ValueText(a.value)
  }

  /** `find` skips the attributes before the first match and ignores those after it. */
  lemma {:induction false} FindFirstMatch(before: seq<Attribute>, a: Attribute, after: seq<Attribute>)
    requires forall b :: b in before ==> b.key != a.key
    ensures FindAttribute(before + [a] + after, a.key) == Some(a)
  {
    if before != [] {
      assert before[0] in before;
      assert (before + [a] + after)[1..] == before[1..] + [a] + after;
      FindFirstMatch(before[1..], a, after);
    } else {
      assert (before + [a] + after)[0] == a;
    }
  }

  /** The first attribute with the key decides the text; later ones with the same key do not count. */
  lemma FirstMatchWins(before: seq<Attribute>, a: Attribute, after: seq<Attribute>)
    requires forall b :: b in before ==> b.key != a.key
    ensures GetAttribute(Some(before + [a] + after), a.key) == ValueText(a.value)
  {
    FindFirstMatch(before, a, after);
  }

  function Groups(p: Payload): seq<ResourceSpans> {
    p.resourceSpans.GetOr([])
  }

  function Scopes(g: ResourceSpans): seq<ScopeSpans> {
    g.scopeSpans.GetOr([])
  }

  function Spans(sc: ScopeSpans): seq<Span> {
    sc.spans.GetOr([])
  }

  /** `resourceSpan.resource?.attributes` */
  function ResourceAttributes(g: ResourceSpans): Option<seq<Attribute>> {
    match g.resource
    case None => None
    case Some(res) => res.attributes
  }

  /** The repository name every span of the group is attributed to. */
  function RepoOf(g: ResourceSpans): string {
    GetAttribute(ResourceAttributes(g), RepoKey)
  }

  /** A span together with the repository name of its enclosing resource group. */
  datatype Site = Site(span: Span, repo: string)

  /** The span belongs to one of the group's scope groups and carries the group's repository. */
  ghost predicate FromGroup(site: Site, g: ResourceSpans) {
    site.repo == RepoOf(g) && exists sc :: sc in Scopes(g) && site.span in Spans(sc)
  }

  function SpanSites(spans: seq<Span>, repo: string): (r: seq<Site>)
    ensures |r| == |spans|
    ensures forall k :: 0 <= k < |r| ==> r[k] == Site(spans[k], repo)
  {
    seq(|spans|, k requires 0 <= k < |spans| => Site(spans[k], repo))
  }

  /** The spans of some scope groups, in order, each paired with `repo`. */
  function ScopeSites(scopes: seq<ScopeSpans>, repo: string): seq<Site> {
    if scopes == [] then []
    else ScopeSites(scopes[..|scopes| - 1], repo) + SpanSites(Spans(scopes[|scopes| - 1]), repo)
  }

  /** The spans of some resource groups, in nesting order, each with its own group's repository. */
  function GroupSites(groups: seq<ResourceSpans>): seq<Site> {
    if groups == [] then []
    else
      var last := groups[|groups| - 1];
      GroupSites(groups[..|groups| - 1]) + ScopeSites(Scopes(last), RepoOf(last))
  }

  /** Every site of some scope groups carries `repo` and a span of one of those scope groups. */
  lemma {:induction false} ScopeSitesFrom(scopes: seq<ScopeSpans>, repo: string)
    ensures forall k :: 0 <= k < |ScopeSites(scopes, repo)| ==>
              ScopeSites(scopes, repo)[k].repo == repo &&
              exists sc :: sc in scopes && ScopeSites(scopes, repo)[k].span in Spans(sc)
  {
    if scopes != [] {
      var init, last := scopes[..|scopes| - 1], scopes[|scopes| - 1];
      ScopeSitesFrom(init, repo);
      var a: seq<Site>, b: seq<Site> := ScopeSites(init, repo), SpanSites(Spans(last), repo);
      forall k | 0 <= k < |a + b|
        ensures (a + b)[k].repo == repo && exists sc :: sc in scopes && (a + b)[k].span in Spans(sc)
      {
        if k < |a| {
          var sc :| sc in init && a[k].span in Spans(sc);
          assert sc in scopes;
        } else {
          assert (a + b)[k].span == Spans(last)[k - |a|];
        }
      }
    }
  }

  /**
   * Every site of a payload comes from one resource group: its span lies in one of that
   * group's scope groups and its repository is that group's, never a sibling's.
   */
  lemma {:induction false} GroupSitesFrom(groups: seq<ResourceSpans>)
    ensures forall k :: 0 <= k < |GroupSites(groups)| ==>
              exists i :: 0 <= i < |groups| && FromGroup(GroupSites(groups)[k], groups[i])
  {
    if groups != [] {
      var init, last := groups[..|groups| - 1], groups[|groups| - 1];
      GroupSitesFrom(init);
      ScopeSitesFrom(Scopes(last), RepoOf(last));
      var a: seq<Site>, b: seq<Site> := GroupSites(init), ScopeSites(Scopes(last), RepoOf(last));
      var all := GroupSites(groups);
      assert all == a + b;
      forall k | 0 <= k < |all|
        ensures exists i :: 0 <= i < |groups| && FromGroup(all[k], groups[i])
      {
        if k < |a| {
          assert all[k] == a[k];
          var i :| 0 <= i < |init| && FromGroup(a[k], init[i]);
          assert groups[i] == init[i];
          assert FromGroup(all[k], groups[i]);
        } else {
          var j := k - |a|;
          assert all[k] == b[j];
          assert b[j].repo == RepoOf(last);
          var sc :| sc in Scopes(last) && b[j].span in Spans(sc);
          assert FromGroup(all[k], groups[|groups| - 1]);
        }
      }
      assert forall k :: 0 <= k < |all| ==> exists i :: 0 <= i < |groups| && FromGroup(all[k], groups[i]);
    } else {
      assert GroupSites(groups) == [];
    }
  }

  /** The trace built for one span (the object literal in the innermost loop). */
  function ToTrace(site: Site, stamp: Stamp): TraceStore.ParsedTrace {
    var attrs := site.span.attributes;
    TraceStore.ParsedTrace(
      id := site.span.traceId + "-" + site.span.spanId + "-" + DecimalText(stamp.epochMillis),
      timestamp := stamp.iso,
      traceId := site.span.traceId,
      spanId := site.span.spanId,
      commitId := GetAttribute(attrs, CommitIdKey),
      commitShort := GetAttribute(attrs, CommitShortKey),
      message := GetAttribute(attrs, MessageKey),
      author := GetAttribute(attrs, AuthorKey),
      email := GetAttribute(attrs, EmailKey),
      branch := GetAttribute(attrs, BranchKey),
      repo := site.repo,
      aiStats := GetAttribute(attrs, AiStatsKey))
  }

  function DecodeSites(sites: seq<Site>, clock: nat -> Stamp): seq<TraceStore.ParsedTrace> {
    seq(|sites|, k requires 0 <= k < |sites| => ToTrace(sites[k], clock(k)))
  }

  /** The traces a payload yields, in the order the handler adds them. */
  function Decode(p: Payload, clock: nat -> Stamp): seq<TraceStore.ParsedTrace> {
    DecodeSites(GroupSites(Groups(p)), clock)
  }

  lemma DecodeSitesSnoc(sites: seq<Site>, s: Site, clock: nat -> Stamp)
    ensures DecodeSites(sites + [s], clock) == DecodeSites(sites, clock) + [ToTrace(s, clock(|sites|))]
  {
  }

  /**
   * Every decoded trace comes from one span of one resource group: its `repo` is that
   * group's `vcs.repository.name`, its other fields are read from that span's own
   * attributes under their fixed keys, and its `id` joins trace id, span id and clock.
   */
  lemma DecodeProvenance(p: Payload, clock: nat -> Stamp, k: nat)
    requires k < |Decode(p, clock)|
    ensures exists i, sc, span ::
              0 <= i < |Groups(p)| && sc in Scopes(Groups(p)[i]) && span in Spans(sc) &&
              var t := Decode(p, clock)[k];
              t.repo == RepoOf(Groups(p)[i]) &&
              t.traceId == span.traceId && t.spanId == span.spanId &&
              t.id == span.traceId + "-" + span.spanId + "-" + DecimalText(clock(k).epochMillis) &&
              t.timestamp == clock(k).iso &&
              t.commitId == GetAttribute(span.attributes, CommitIdKey) &&
              t.commitShort == GetAttribute(span.attributes, CommitShortKey) &&
              t.message == GetAttribute(span.attributes, MessageKey) &&
              t.author == GetAttribute(span.attributes, AuthorKey) &&
              t.email == GetAttribute(span.attributes, EmailKey) &&
              t.branch == GetAttribute(span.attributes, BranchKey) &&
              t.aiStats == GetAttribute(span.attributes, AiStatsKey)
  {
    var sites := GroupSites(Groups(p));
    GroupSitesFrom(Groups(p));
    var site := sites[k];
    var i :| 0 <= i < |Groups(p)| && FromGroup(site, Groups(p)[i]);
    var sc :| sc in Scopes(Groups(p)[i]) && site.span in Spans(sc);
    var span := site.span;
    assert Decode(p, clock)[k] == ToTrace(site, clock(k));
  }

  /** A resource group whose scope groups all hold `n` spans contributes `m * n` sites. */
  lemma {:induction false} UniformScopeCount(scopes: seq<ScopeSpans>, repo: string, n: nat)
    requires forall sc :: sc in scopes ==> |Spans(sc)| == n
    ensures |ScopeSites(scopes, repo)| == |scopes| * n
  {
    if scopes != [] {
      var init := scopes[..|scopes| - 1];
      assert forall sc :: sc in init ==> sc in scopes;
      UniformScopeCount(init, repo, n);
      assert |scopes| * n == |init| * n + n;
    }
  }

  lemma AddOneGroup(k: nat, m: nat, n: nat)
    ensures (k + 1) * m * n == k * m * n + m * n
  {
    assert (k + 1) * m == k * m + m;
    assert (k * m + m) * n == k * m * n + m * n;
  }

  /** `k` resource groups of `m` scope groups of `n` spans each yield `k * m * n` traces. */
  lemma {:induction false} UniformCount(groups: seq<ResourceSpans>, m: nat, n: nat)
    requires forall g :: g in groups ==> |Scopes(g)| == m && forall sc :: sc in Scopes(g) ==> |Spans(sc)| == n
    ensures |GroupSites(groups)| == |groups| * m * n
  {
    if groups != [] {
      var init, last := groups[..|groups| - 1], groups[|groups| - 1];
      assert forall g :: g in init ==> g in groups;
      UniformCount(init, m, n);
      UniformScopeCount(Scopes(last), RepoOf(last), n);
      AddOneGroup(|init|, m, n);
    }
  }

  /** Missing `resourceSpans` yield no trace at all. */
  lemma NoGroupsNoTraces(clock: nat -> Stamp)
    ensures Decode(Payload(None), clock) == []
  {
  }

  /**
   * The store after the traces of `done` were added to it, starting from window `w0`,
   * history `h0` and log `l0`, with registry `ls` throughout.
   */
  ghost predicate IngestedSoFar(store: TraceStore.Store, w0: seq<TraceStore.ParsedTrace>,
                                h0: seq<TraceStore.ParsedTrace>, l0: seq<TraceStore.Delivery>,
                                ls: seq<TraceStore.ListenerId>, done: seq<Site>, clock: nat -> Stamp)
    reads store
  {
    var added := DecodeSites(done, clock);
    && store.Valid()
    && store.listeners == ls
    && store.history == h0 + added
    && store.traces == TraceStore.Replay(w0, added)
    && store.log == l0 + TraceStore.ReplayLog(ls, w0, added)
  }

  /** One pass of the innermost loop: build the trace of `site` and add it. */
  method IngestSite(store: TraceStore.Store, site: Site, clock: nat -> Stamp, count: nat,
                    ghost w0: seq<TraceStore.ParsedTrace>, ghost h0: seq<TraceStore.ParsedTrace>,
                    ghost l0: seq<TraceStore.Delivery>, ghost ls: seq<TraceStore.ListenerId>,
                    ghost done: seq<Site>)
    requires count == |done|
    requires IngestedSoFar(store, w0, h0, l0, ls, done, clock)
    modifies store
    ensures IngestedSoFar(store, w0, h0, l0, ls, done + [site], clock)
  {
    var trace := ToTrace(site, clock(count));
    ghost var ts := DecodeSites(done, clock);
    store.AddTrace(trace);
    DecodeSitesSnoc(done, site, clock);
    assert DecodeSites(done + [site], clock) == ts + [trace];
    assert (ts + [trace])[..|ts|] == ts;
  }

  /** The innermost loop: the spans of one scope group, in order. */
  method IngestSpans(store: TraceStore.Store, spans: seq<Span>, repo: string, clock: nat -> Stamp,
                     count0: nat, ghost w0: seq<TraceStore.ParsedTrace>,
                     ghost h0: seq<TraceStore.ParsedTrace>, ghost l0: seq<TraceStore.Delivery>,
                     ghost ls: seq<TraceStore.ListenerId>, ghost done0: seq<Site>)
      returns (count: nat)
    requires count0 == |done0|
    requires IngestedSoFar(store, w0, h0, l0, ls, done0, clock)
    modifies store
    ensures count == count0 + |spans|
    ensures IngestedSoFar(store, w0, h0, l0, ls, done0 + SpanSites(spans, repo), clock)
  {
    ghost var done := done0;
    count := count0;
    var k := 0;
    while k < |spans|
      invariant 0 <= k <= |spans|
      invariant done == done0 + SpanSites(spans[..k], repo) && count == |done|
      invariant IngestedSoFar(store, w0, h0, l0, ls, done, clock)
    {
      var site := Site(spans[k], repo);
      IngestSite(store, site, clock, count, w0, h0, l0, ls, done);
      done := done + [site];
      assert SpanSites(spans[..k + 1], repo) == SpanSites(spans[..k], repo) + [site];
      count := count + 1;
      k := k + 1;
    }
    assert spans[..k] == spans;
  }

  lemma ScopeSitesPrefix(scopes: seq<ScopeSpans>, j: nat, repo: string)
    requires j < |scopes|
    ensures ScopeSites(scopes[..j + 1], repo) == ScopeSites(scopes[..j], repo) + SpanSites(Spans(scopes[j]), repo)
  {
    assert scopes[..j + 1][..j] == scopes[..j];
  }

  /** The middle loop: the scope groups of one resource group, in order. */
  method IngestScopes(store: TraceStore.Store, scopes: seq<ScopeSpans>, repo: string, clock: nat -> Stamp,
                      count0: nat, ghost w0: seq<TraceStore.ParsedTrace>,
                      ghost h0: seq<TraceStore.ParsedTrace>, ghost l0: seq<TraceStore.Delivery>,
                      ghost ls: seq<TraceStore.ListenerId>, ghost done0: seq<Site>)
      returns (count: nat)
    requires count0 == |done0|
    requires IngestedSoFar(store, w0, h0, l0, ls, done0, clock)
    modifies store
    ensures count == |done0 + ScopeSites(scopes, repo)|
    ensures IngestedSoFar(store, w0, h0, l0, ls, done0 + ScopeSites(scopes, repo), clock)
  {
    ghost var done := done0;
    count := count0;
    var j := 0;
    while j < |scopes|
      invariant 0 <= j <= |scopes|
      invariant done == done0 + ScopeSites(scopes[..j], repo) && count == |done|
      invariant IngestedSoFar(store, w0, h0, l0, ls, done, clock)
    {
      ghost var next := SpanSites(Spans(scopes[j]), repo);
      count := IngestSpans(store, Spans(scopes[j]), repo, clock, count, w0, h0, l0, ls, done);
      ScopeSitesPrefix(scopes, j, repo);
      done := done + next;
      j := j + 1;
    }
    assert scopes[..j] == scopes;
  }

  /**
   * The POST handler. A body that does not parse is answered with 400 and changes
   * nothing; any payload that parses is answered with `{status: 'ok'}` after every decoded
   * trace has been added to the store, in order, even when there is none.
   */
  method Post(store: TraceStore.Store, body: Body, clock: nat -> Stamp) returns (response: Response)
    requires store.Valid()
    modifies store
    ensures store.Valid()
    ensures body.Malformed? ==>
              response == Response(400, Error("Invalid payload")) &&
              store.traces == old(store.traces) && store.listeners == old(store.listeners) &&
              store.history == old(store.history) && store.log == old(store.log)
    ensures body.Decoded? ==>
              var added := Decode(body.payload, clock);
              response == Response(200, StatusOk) &&
              store.history == old(store.history) + added &&
              store.traces == TraceStore.Replay(old(store.traces), added) &&
              store.listeners == old(store.listeners) &&
              store.log == old(store.log) + TraceStore.ReplayLog(store.listeners, old(store.traces), added)
  {
    if body.Malformed? {
      return Response(400, Error("Invalid payload"));
    }
    ghost var w0, h0, l0, ls := store.traces, store.history, store.log, store.listeners;
    assert h0 + [] == h0 && l0 + [] == l0;
    var groups := Groups(body.payload);
    ghost var done: seq<Site> := [];
    var count := 0;
    var i := 0;
    while i < |groups|
      invariant 0 <= i <= |groups|
      invariant done == GroupSites(groups[..i]) && count == |done|
      invariant IngestedSoFar(store, w0, h0, l0, ls, done, clock)
    {
      var repo := RepoOf(groups[i]);
      ghost var next := ScopeSites(Scopes(groups[i]), repo);
      count := IngestScopes(store, Scopes(groups[i]), repo, clock, count, w0, h0, l0, ls, done);
      assert groups[..i + 1][..i] == groups[..i];
      assert GroupSites(groups[..i + 1]) == GroupSites(groups[..i]) + next;
      done := done + next;
      i := i + 1;
    }
    assert groups[..i] == groups;
    return Response(200, StatusOk);
  }
}
