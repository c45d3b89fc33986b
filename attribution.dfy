/**
 * The attribution block of the dashboard page (`demo-ui/src/app/page.tsx`): the
 * `git.ai.stats` text of a trace has every backslash-quote pair rewritten to a bare quote,
 * is then handed to the JSON parser, and any parse failure collapses to `null`. The block
 * is shown only for a truthy result, and each line counter it shows falls back to 0.
 *
 * The JSON parser itself is a parameter: `parse` returns `None` where `JSON.parse` throws.
 */
module Attribution {
  import opened Wrappers

  /** The values `JSON.parse` produces; object members keep their textual order. */
  datatype Json =
    | JNull
    | JBool(b: bool)
    | JNumber(n: real)
    | JString(s: string)
    | JArray(items: seq<Json>)
    | JObject(members: seq<(string, Json)>)

  /** A backslash immediately followed by a double quote starts at `i`. */
  predicate PairAt(s: string, i: int) {
    0 <= i && i + 1 < |s| && s[i] == '\\' && s[i + 1] == '"'
  }

  /** The regular-expression replace `/\\"/g -> '"'`: one left-to-right pass, non-overlapping. */
  function Unescape(s: string): string {
    if |s| < 2 then s
    else if PairAt(s, 0) then "\"" + Unescape(s[2..])
    else [s[0]] + Unescape(s[1..])
  }

  /** The number of pairs that pass replaces. */
  function PairCount(s: string): nat {
    if |s| < 2 then 0
    else if PairAt(s, 0) then 1 + PairCount(s[2..])
    else PairCount(s[1..])
  }

  /** Each replaced pair shortens the text by one character, and nothing else does. */
  lemma {:induction false} UnescapeLength(s: string)
    ensures |Unescape(s)| == |s| - PairCount(s)
    ensures PairCount(s) <= |s| / 2
  {
    if |s| >= 2 {
      if PairAt(s, 0) {
        UnescapeLength(s[2..]);
      } else {
        UnescapeLength(s[1..]);
      }
    }
  }

  /** Text without a backslash-quote pair reaches the parser unchanged. */
  lemma {:induction false} NoPairUnchanged(s: string)
    requires forall i :: !PairAt(s, i)
    ensures Unescape(s) == s
    ensures PairCount(s) == 0
  {
    if |s| >= 2 {
      assert !PairAt(s, 0);
      assert forall i :: !PairAt(s[1..], i) by {
        forall i ensures !PairAt(s[1..], i) {
          assert !PairAt(s, i + 1);
        }
      }
      NoPairUnchanged(s[1..]);
    }
  }

  /** The occurrences of one character after the rewrite: only backslashes go, one per pair. */
  lemma {:induction false} UnescapeCount(s: string, c: char)
    ensures multiset(Unescape(s))[c] + (if c == '\\' then PairCount(s) else 0) == multiset(s)[c]
  {
    if |s| >= 2 {
      if PairAt(s, 0) {
        UnescapeCount(s[2..], c);
        assert s == [s[0], s[1]] + s[2..];
        assert Unescape(s) == ['"'] + Unescape(s[2..]);
      } else {
        UnescapeCount(s[1..], c);
        assert s == [s[0]] + s[1..];
        assert Unescape(s) == [s[0]] + Unescape(s[1..]);
      }
    }
  }

  /**
   * The rewrite only deletes characters, and only backslashes: every other character keeps
   * its number of occurrences, and exactly one backslash goes per replaced pair.
   */
  lemma UnescapeDropsBackslashes(s: string)
    ensures forall c :: c != '\\' ==> multiset(Unescape(s))[c] == multiset(s)[c]
    ensures multiset(Unescape(s))['\\'] + PairCount(s) == multiset(s)['\\']
  {
    forall c ensures multiset(Unescape(s))[c] + (if c == '\\' then PairCount(s) else 0) == multiset(s)[c] {
      UnescapeCount(s, c);
    }
  }

  /** The rewrite is a single pass: a doubled backslash before a quote leaves a pair behind. */
  lemma SinglePass()
    ensures Unescape("\\\\\"") == "\\\""
    ensures PairAt(Unescape("\\\\\""), 0)
  {
    assert PairAt("\\\"", 0);
    assert !PairAt("\\\\\"", 0);
  }

  /** The escaping the rewrite undoes: a backslash inserted before every double quote. */
  function EscapeQuotes(s: string): string {
    if s == [] then []
    else (if s[0] == '"' then "\\\"" else [s[0]]) + EscapeQuotes(s[1..])
  }

  /** An escaped text never starts with a bare quote. */
  lemma EscapedStart(s: string)
    requires s != []
    ensures EscapeQuotes(s)[0] != '"'
  {
  }

  /** Unescaping text whose quotes were all escaped gives the original text back. */
  lemma {:induction false} UnescapeEscape(s: string)
    ensures Unescape(EscapeQuotes(s)) == s
  {
    if s != [] {
      var rest := EscapeQuotes(s[1..]);
      UnescapeEscape(s[1..]);
      if s[0] == '"' {
        assert EscapeQuotes(s) == "\\\"" + rest;
        assert EscapeQuotes(s)[2..] == rest;
      } else if rest == [] {
        assert EscapeQuotes(s) == [s[0]];
      } else {
        EscapedStart(s[1..]);
        assert EscapeQuotes(s) == [s[0]] + rest;
        assert EscapeQuotes(s)[1..] == rest;
        assert !PairAt(EscapeQuotes(s), 0);
      }
    }
  }

  /** `parseAiStats`: rewrite, then parse; a text the parser rejects becomes `null`. */
  function ParseAiStats(raw: string, parse: string -> Option<Json>): (r: Json)
    ensures parse(Unescape(raw)).None? ==> r == JNull
    ensures parse(Unescape(raw)).Some? ==> r == parse(Unescape(raw)).value
  {
    match parse(Unescape(raw))
    case None => JNull
    case Some(v) => v
  }

  /** JavaScript truthiness of a parsed value (`NaN` cannot arise here). */
  predicate Truthy(v: Json) {
    match v
    case JNull => false
    case JBool(b) => b
    case JNumber(n) => n != 0.0
    case JString(s) => s != ""
    case JArray(_) => true
    case JObject(_) => true
  }

  /** The value of the last member named `key`, as `JSON.parse` keeps the last duplicate. */
  function Lookup(members: seq<(string, Json)>, key: string): (r: Option<Json>)
    ensures r.None? <==> forall m :: m in members ==> m.0 != key
    ensures r.Some? ==> (key, r.value) in members
  {
    if members == [] then None
    else if members[|members| - 1].0 == key then Some(members[|members| - 1].1)
    else Lookup(members[..|members| - 1], key)
  }

  /** A member is found when no later member has the same name. */
  lemma {:induction false} LastMemberWins(before: seq<(string, Json)>, key: string, v: Json,
                                          after: seq<(string, Json)>)
    requires forall m :: m in after ==> m.0 != key
    ensures Lookup(before + [(key, v)] + after, key) == Some(v)
  {
    if after != [] {
      var init := after[..|after| - 1];
      assert forall m :: m in init ==> m in after;
      LastMemberWins(before, key, v, init);
      assert (before + [(key, v)] + after)[..|before + [(key, v)] + after| - 1] == before + [(key, v)] + init;
    } else {
      assert before + [(key, v)] + after == before + [(key, v)];
    }
  }

  /** Property access on the parsed value; `None` is `undefined` (no member of that name). */
  function Property(stats: Json, key: string): Option<Json> {
    match stats
    case JObject(members) => Lookup(members, key)
    case _ => None
  }

  /** `stats.<key> ?? 0`: `null` and `undefined` both display as 0. */
  function CountShown(stats: Json, key: string): (r: Json)
    ensures r != JNull
    ensures Property(stats, key).None? ==> r == JNumber(0.0)
    ensures Property(stats, key) == Some(JNull) ==> r == JNumber(0.0)
    ensures Property(stats, key).Some? && Property(stats, key) != Some(JNull) ==> r == Property(stats, key).value
  {
    match Property(stats, key)
    case None => JNumber(0.0)
    case Some(JNull) => JNumber(0.0)
    case Some(v) => v
  }

  const AiKey := "ai_additions"
  const HumanKey := "human_additions"
  const MixedKey := "mixed_additions"
  const PercentageKey := "ai_percentage"

  /** What the block shows: the percentage (only when defined) and the three line counters. */
  datatype Panel = Panel(percentage: Option<Json>, ai: Json, human: Json, mixed: Json)

  /** The attribution block of one trace, or `None` when it is not rendered. */
  function AttributionPanel(raw: string, parse: string -> Option<Json>): (r: Option<Panel>)
    ensures r.Some? <==> Truthy(ParseAiStats(raw, parse))
    ensures r.Some? ==> r.value.ai != JNull && r.value.human != JNull && r.value.mixed != JNull
    ensures r.Some? ==>
              var stats := ParseAiStats(raw, parse);
              r.value == Panel(Property(stats, PercentageKey), CountShown(stats, AiKey),
                               CountShown(stats, HumanKey), CountShown(stats, MixedKey))
  {
    var stats := ParseAiStats(raw, parse);
    if Truthy(stats) then
      Some(Panel(Property(stats, PercentageKey), CountShown(stats, AiKey),
                 CountShown(stats, HumanKey), CountShown(stats, MixedKey)))
    else None
  }

  /** Text the parser rejects never renders a block, whatever its contents. */
  lemma RejectedHidesPanel(raw: string, parse: string -> Option<Json>)
    requires parse(Unescape(raw)) == None
    ensures AttributionPanel(raw, parse) == None
  {
  }

  /**
   * A stats object without any of the three counters still renders a block, showing 0 lines
   * of each kind.
   */
  lemma MissingCountersShowZero(raw: string, parse: string -> Option<Json>, members: seq<(string, Json)>)
    requires parse(Unescape(raw)) == Some(JObject(members))
    requires forall m :: m in members ==> m.0 != AiKey && m.0 != HumanKey && m.0 != MixedKey
    ensures AttributionPanel(raw, parse).Some?
    ensures AttributionPanel(raw, parse).value.ai == JNumber(0.0)
    ensures AttributionPanel(raw, parse).value.human == JNumber(0.0)
    ensures AttributionPanel(raw, parse).value.mixed == JNumber(0.0)
  {
  }

  /**
   * A counter present as a number shows that number, taken from the last member of that
   * name in the stats text.
   */
  lemma PresentCounterShown(stats: Json, before: seq<(string, Json)>, key: string, n: real,
                            after: seq<(string, Json)>)
    requires stats == JObject(before + [(key, JNumber(n))] + after)
    requires forall m :: m in after ==> m.0 != key
    ensures CountShown(stats, key) == JNumber(n)
  {
    LastMemberWins(before, key, JNumber(n), after);
  }
}
