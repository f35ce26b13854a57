/**
 * The CIS bot's survey list, rebuilt from the transaction history: every
 * `create_survey` memo sent to the app, oldest first, is admitted unless its
 * sender already created three surveys in the trailing 24 hours; the latest
 * admitted creation of each survey id wins, and the list is newest first.
 */
module CisSurveys {
  import opened Options
  import opened JsValues
  import opened CisText
  import opened OrderedMaps
  import Ranking

  const SURVEY_COOLDOWN_MS: int := 24 * 60 * 60 * 1000
  const MAX_SURVEYS_PER_WINDOW: nat := 3

  /** One `create_survey` transaction: the normalized survey, its time and its sender. */
  datatype Creation = Creation(survey: Survey, ts: int, from: string)

  /** What `latestCreated` keeps per survey id. */
  datatype Latest = Latest(survey: Survey, ts: int)

  /** A survey as listed: its definition with creation and expiry times. */
  datatype SurveyView = SurveyView(survey: Survey, createdAtMs: int, expiresAtMs: int, archived: bool)

  /** The creation a transaction carries, if it is a CIS `create_survey` with a valid definition. */
  function CreationOf(raw: Json, appPubkey: string, env: Env): (r: Option<Creation>)
    ensures r.Some? <==>
      ParseCisTx(raw, appPubkey, env).Some?
      && Get(ParseCisTx(raw, appPubkey, env).value.memo, "type") == Str("create_survey")
      && NormalizeSurveyDefinition(Get(ParseCisTx(raw, appPubkey, env).value.memo, "survey")).Some?
    ensures r.Some? ==> r.value.from != [] && r.value.ts == ParseCisTx(raw, appPubkey, env).value.tx.ts
  {
    var p := ParseCisTx(raw, appPubkey, env);
    if p.None? || Get(p.value.memo, "type") != Str("create_survey") then None
    else
      var s := NormalizeSurveyDefinition(Get(p.value.memo, "survey"));
      if s.None? then None else Some(Creation(s.value, p.value.tx.ts, p.value.tx.from.value))
  }

  /** The creations of a history, in history order. */
  function Creations(txs: seq<Json>, appPubkey: string, env: Env): (r: seq<Creation>)
    ensures |r| <= |txs|
    decreases |txs|
  {
    if txs == [] then []
    else
      var c := CreationOf(txs[|txs| - 1], appPubkey, env);
      Creations(txs[..|txs| - 1], appPubkey, env) + (if c.Some? then [c.value] else [])
  }

  /** `a.ts - b.ts` as a descending key: the oldest first. */
  function OldestFirst(c: Creation): seq<int>
  {
    [-c.ts]
  }

  /** `b.ts - a.ts`: the newest first. */
  function NewestFirst(x: Latest): seq<int>
  {
    [x.ts]
  }

  predicate TimeOrdered(s: seq<Creation>)
  {
    forall i, j :: 0 <= i < j < |s| ==> s[i].ts <= s[j].ts
  }

  /** The oldest-first sort orders the creations by time and keeps them all. */
  lemma OldestFirstOrdered(s: seq<Creation>)
    ensures TimeOrdered(Ranking.SortDesc(s, OldestFirst))
    ensures multiset(Ranking.SortDesc(s, OldestFirst)) == multiset(s)
  {
    Ranking.SortDescSorted(s, OldestFirst, 1);
    var r := Ranking.SortDesc(s, OldestFirst);
    forall i, j | 0 <= i < j < |r|
      ensures r[i].ts <= r[j].ts
    {
      Ranking.PrecedesSingle(-r[j].ts, -r[i].ts);
    }
  }

  /** `times.filter(t => t > windowStart)` */
  function FilterAfter(xs: seq<int>, w: int): (r: seq<int>)
    ensures |r| <= |xs|
    ensures forall t :: t in r ==> t > w
    decreases |xs|
  {
    if xs == [] then []
    else FilterAfter(xs[..|xs| - 1], w) + (if xs[|xs| - 1] > w then [xs[|xs| - 1]] else [])
  }

  /** Filtering twice is filtering once with the later window start. */
  lemma {:induction false} FilterAfterTwice(xs: seq<int>, w1: int, w2: int)
    ensures FilterAfter(FilterAfter(xs, w1), w2) == FilterAfter(xs, if w1 > w2 then w1 else w2)
    decreases |xs|
  {
    if xs != [] {
      var init := xs[..|xs| - 1];
      var t := xs[|xs| - 1];
      FilterAfterTwice(init, w1, w2);
      var f := FilterAfter(init, w1);
      if t > w1 {
        assert (f + [t])[..|f|] == f;
      } else {
        assert f + [] == f;
      }
    }
  }

  /** The times of the creations of one sender, in order. */
  function SenderTimes(acc: seq<Creation>, s: string): seq<int>
    decreases |acc|
  {
    if acc == [] then []
    else SenderTimes(acc[..|acc| - 1], s) + (if acc[|acc| - 1].from == s then [acc[|acc| - 1].ts] else [])
  }

  /** Fewer than three of the sender's admitted creations are later than 24 hours before `e`. */
  predicate Admits(acc: seq<Creation>, e: Creation)
  {
    |FilterAfter(SenderTimes(acc, e.from), e.ts - SURVEY_COOLDOWN_MS)| < MAX_SURVEYS_PER_WINDOW
  }

  /**
   * The rate limit: a creation is admitted unless its sender already has
   * three admitted creations later than 24 hours before it.
   */
  function Admit(s: seq<Creation>): (r: seq<Creation>)
    ensures |r| <= |s|
    ensures forall c :: c in r ==> c in s
    decreases |s|
  {
    if s == [] then []
    else
      var acc := Admit(s[..|s| - 1]);
      var e := s[|s| - 1];
      if Admits(acc, e) then acc + [e] else acc
  }

  /** The times in the window `(lo, hi]`. */
  function InWindow(xs: seq<int>, lo: int, hi: int): seq<int>
    decreases |xs|
  {
    if xs == [] then []
    else InWindow(xs[..|xs| - 1], lo, hi) + (if lo < xs[|xs| - 1] <= hi then [xs[|xs| - 1]] else [])
  }

  lemma {:induction false} WindowWithinFilter(xs: seq<int>, lo: int, hi: int, w: int)
    requires w <= lo
    ensures |InWindow(xs, lo, hi)| <= |FilterAfter(xs, w)|
    decreases |xs|
  {
    if xs != [] {
      WindowWithinFilter(xs[..|xs| - 1], lo, hi, w);
    }
  }

  lemma InWindowSnoc(xs: seq<int>, x: int, lo: int, hi: int)
    ensures InWindow(xs + [x], lo, hi) == InWindow(xs, lo, hi) + (if lo < x <= hi then [x] else [])
  {
    assert (xs + [x])[..|xs|] == xs;
  }

  /**
   * The limit holds for every window: no sender has more than three
   * admitted creations in any 24 hours `(T - 24h, T]`.
   */
  lemma {:induction false} AdmitWindowLimit(s: seq<Creation>, sender: string, t: int)
    ensures |InWindow(SenderTimes(Admit(s), sender), t - SURVEY_COOLDOWN_MS, t)| <= MAX_SURVEYS_PER_WINDOW
    decreases |s|
  {
    if s != [] {
      var init := s[..|s| - 1];
      var e := s[|s| - 1];
      var acc := Admit(init);
      AdmitWindowLimit(init, sender, t);
      if Admits(acc, e) {
        assert Admit(s) == acc + [e];
        AdmittedKeepsLimit(acc, e, sender, t);
      } else {
        assert Admit(s) == acc;
      }
    }
  }

  /** An admitted creation keeps every window of its sender within the limit. */
  lemma AdmittedKeepsLimit(acc: seq<Creation>, e: Creation, sender: string, t: int)
    requires Admits(acc, e)
    requires |InWindow(SenderTimes(acc, sender), t - SURVEY_COOLDOWN_MS, t)| <= MAX_SURVEYS_PER_WINDOW
    ensures |InWindow(SenderTimes(acc + [e], sender), t - SURVEY_COOLDOWN_MS, t)| <= MAX_SURVEYS_PER_WINDOW
  {
    var lo := t - SURVEY_COOLDOWN_MS;
    var before := SenderTimes(acc, sender);
    if e.from == sender {
      AdmitOne(acc, e);
      InWindowSnoc(before, e.ts, lo, t);
      if lo < e.ts <= t {
        WindowWithinFilter(before, lo, t, e.ts - SURVEY_COOLDOWN_MS);
      }
    } else {
      OtherSender(acc, e, sender);
    }
  }

  /** A creation more than 24 hours after all of its sender's admitted ones is always admitted. */
  lemma AdmitAfterQuiet(s: seq<Creation>, e: Creation)
    requires forall c :: c in Admit(s) && c.from == e.from ==> c.ts <= e.ts - SURVEY_COOLDOWN_MS
    ensures Admit(s + [e]) == Admit(s) + [e]
  {
    assert (s + [e])[..|s|] == s;
    QuietSender(Admit(s), e.from, e.ts - SURVEY_COOLDOWN_MS);
  }

  lemma {:induction false} QuietSender(acc: seq<Creation>, sender: string, w: int)
    requires forall c :: c in acc && c.from == sender ==> c.ts <= w
    ensures FilterAfter(SenderTimes(acc, sender), w) == []
    decreases |acc|
  {
    if acc != [] {
      var init := acc[..|acc| - 1];
      assert forall c :: c in init ==> c in acc;
      QuietSender(init, sender, w);
      var st := SenderTimes(init, sender);
      if acc[|acc| - 1].from == sender {
        assert (st + [acc[|acc| - 1].ts])[..|st|] == st;
      } else {
        assert st + [] == st;
      }
    }
  }

  /** `latestCreated`: a later-or-equal creation of an id replaces the earlier one. */
  function LatestBy(acc: seq<Creation>): Entries<string, Latest>
    decreases |acc|
  {
    if acc == [] then []
    else
      var m := LatestBy(acc[..|acc| - 1]);
      var e := acc[|acc| - 1];
      var existing := Find(m, e.survey.id);
      if existing.None? || e.ts >= existing.value.ts then Put(m, e.survey.id, Latest(e.survey, e.ts)) else m
  }

  lemma LatestStep(acc: seq<Creation>, e: Creation)
    ensures LatestBy(acc + [e]) ==
      var m := LatestBy(acc);
      var existing := Find(m, e.survey.id);
      if existing.None? || e.ts >= existing.value.ts then Put(m, e.survey.id, Latest(e.survey, e.ts)) else m
  {
    assert (acc + [e])[..|acc|] == acc;
  }

  /** The last creation of an id in a sequence. */
  function LastWithId(acc: seq<Creation>, id: string): (r: Option<Creation>)
    ensures r.Some? ==> r.value in acc && r.value.survey.id == id
    decreases |acc|
  {
    if acc == [] then None
    else if acc[|acc| - 1].survey.id == id then Some(acc[|acc| - 1])
    else LastWithId(acc[..|acc| - 1], id)
  }

  function AsLatest(c: Option<Creation>): Option<Latest>
  {
    if c.None? then None else Some(Latest(c.value.survey, c.value.ts))
  }

  /**
   * On a time-ordered sequence the map holds each id once, and for each id
   * the last creation with that id.
   */
  lemma {:induction false} LatestIsLast(acc: seq<Creation>, id: string)
    requires TimeOrdered(acc)
    ensures KeysDistinct(LatestBy(acc))
    ensures Find(LatestBy(acc), id) == AsLatest(LastWithId(acc, id))
    decreases |acc|
  {
    if acc != [] {
      var init := acc[..|acc| - 1];
      var e := acc[|acc| - 1];
      var m := LatestBy(init);
      assert TimeOrdered(init);
      LatestIsLast(init, e.survey.id);
      LatestIsLast(init, id);
      var prev := LastWithId(init, e.survey.id);
      if prev.Some? {
        var k :| 0 <= k < |init| && init[k] == prev.value;
        assert acc[k] == prev.value;
      }
      assert LatestBy(acc) == Put(m, e.survey.id, Latest(e.survey, e.ts));
      PutFind(m, e.survey.id, Latest(e.survey, e.ts), id);
    }
  }

  /** Admission keeps the time order. */
  lemma {:induction false} AdmitOrdered(s: seq<Creation>)
    requires TimeOrdered(s)
    ensures TimeOrdered(Admit(s))
    decreases |s|
  {
    if s != [] {
      var init := s[..|s| - 1];
      var e := s[|s| - 1];
      assert TimeOrdered(init);
      AdmitOrdered(init);
      var acc := Admit(init);
      if Admit(s) != acc {
        var r := acc + [e];
        forall i, j | 0 <= i < j < |r|
          ensures r[i].ts <= r[j].ts
        {
          if j == |acc| {
            assert r[i] in init;
            var k :| 0 <= k < |init| && init[k] == r[i];
            assert s[k] == r[i];
          }
        }
      }
    }
  }

  function View(x: Latest, now: int): (v: SurveyView)
    ensures v.survey == x.survey && v.createdAtMs == x.ts
    ensures v.expiresAtMs == x.ts + x.survey.activeDurationMs
    ensures v.archived <==> now >= v.expiresAtMs
  {
    var expiresAtMs := x.ts + x.survey.activeDurationMs;
    SurveyView(x.survey, x.ts, expiresAtMs, now >= expiresAtMs)
  }

  function Views(latest: seq<Latest>, now: int): (r: seq<SurveyView>)
    ensures |r| == |latest|
    ensures forall k :: 0 <= k < |r| ==> r[k] == View(latest[k], now)
  {
    seq(|latest|, k requires 0 <= k < |latest| => View(latest[k], now))
  }

  /** The survey list a history yields at time `now`. */
  function SurveyList(txs: seq<Json>, appPubkey: string, env: Env): seq<SurveyView>
  {
    var admitted := Admit(Ranking.SortDesc(Creations(txs, appPubkey, env), OldestFirst));
    Views(Ranking.SortDesc(Values(LatestBy(admitted)), NewestFirst), env.nowMs)
  }

  /** The list is newest first. */
  lemma SurveyListNewestFirst(txs: seq<Json>, appPubkey: string, env: Env, i: int, j: int)
    requires 0 <= i < j < |SurveyList(txs, appPubkey, env)|
    ensures SurveyList(txs, appPubkey, env)[i].createdAtMs >= SurveyList(txs, appPubkey, env)[j].createdAtMs
  {
    var admitted := Admit(Ranking.SortDesc(Creations(txs, appPubkey, env), OldestFirst));
    var sorted := Ranking.SortDesc(Values(LatestBy(admitted)), NewestFirst);
    Ranking.SortDescSorted(Values(LatestBy(admitted)), NewestFirst, 1);
    Ranking.PrecedesSingle(sorted[j].ts, sorted[i].ts);
  }

  /**
   * The listed entry for a survey id is its latest admitted creation: for
   * every id, `latestCreated.get(id)` is the last admitted creation with it.
   */
  lemma LatestAdmittedWins(txs: seq<Json>, appPubkey: string, env: Env, id: string)
    ensures var admitted := Admit(Ranking.SortDesc(Creations(txs, appPubkey, env), OldestFirst));
      KeysDistinct(LatestBy(admitted)) && Find(LatestBy(admitted), id) == AsLatest(LastWithId(admitted, id))
  {
    var sorted := Ranking.SortDesc(Creations(txs, appPubkey, env), OldestFirst);
    OldestFirstOrdered(Creations(txs, appPubkey, env));
    AdmitOrdered(sorted);
    LatestIsLast(Admit(sorted), id);
  }

  /** The first loop of `rebuildSurveys`: collects the creations. */
  method CollectCreations(txs: seq<Json>, appPubkey: string, env: Env) returns (all: seq<Creation>)
    ensures all == Creations(txs, appPubkey, env)
  {
    all := [];
    var i := 0;
    while i < |txs|
      invariant 0 <= i <= |txs|
      invariant all == Creations(txs[..i], appPubkey, env)
    {
      assert txs[..i + 1][..i] == txs[..i];
      var c := CreationOf(txs[i], appPubkey, env);
      if c.Some? {
        all := all + [c.value];
      }
      i := i + 1;
    }
    assert txs[..i] == txs;
  }

  /** One more admitted creation adds its time to its own sender's times only. */
  lemma AdmitOne(acc: seq<Creation>, e: Creation)
    ensures SenderTimes(acc + [e], e.from) == SenderTimes(acc, e.from) + [e.ts]
    ensures FilterAfter(SenderTimes(acc + [e], e.from), e.ts - SURVEY_COOLDOWN_MS)
      == FilterAfter(SenderTimes(acc, e.from), e.ts - SURVEY_COOLDOWN_MS) + [e.ts]
    ensures forall s :: s != e.from ==> SenderTimes(acc + [e], s) == SenderTimes(acc, s)
  {
    assert (acc + [e])[..|acc|] == acc;
    var st := SenderTimes(acc, e.from);
    assert (st + [e.ts])[..|st|] == st;
  }

  lemma OtherSender(acc: seq<Creation>, e: Creation, s: string)
    requires s != e.from
    ensures SenderTimes(acc + [e], s) == SenderTimes(acc, s)
  {
    assert (acc + [e])[..|acc|] == acc;
  }

  lemma AdmitPrefix(s: seq<Creation>, i: nat)
    requires i < |s|
    ensures Admits(Admit(s[..i]), s[i]) ==> Admit(s[..i + 1]) == Admit(s[..i]) + [s[i]]
    ensures !Admits(Admit(s[..i]), s[i]) ==> Admit(s[..i + 1]) == Admit(s[..i])
  {
    assert s[..i + 1][..i] == s[..i];
  }

  /** The per-sender windows of the loop: each is the sender's admitted times after its last window start. */
  ghost predicate WindowsTrack(bySender: map<string, seq<int>>, lastW: map<string, int>, acc: seq<Creation>)
  {
    bySender.Keys == lastW.Keys && forall s :: TracksSender(bySender, lastW, acc, s)
  }

  /** The window of one sender: their admitted times after the window start, or none without a window. */
  ghost predicate TracksSender(bySender: map<string, seq<int>>, lastW: map<string, int>, acc: seq<Creation>, s: string)
    requires bySender.Keys == lastW.Keys
  {
    if s in bySender then bySender[s] == FilterAfter(SenderTimes(acc, s), lastW[s])
    else SenderTimes(acc, s) == []
  }

  /** A stored window that started no later than the new one filters to the full count. */
  lemma TrackRecent(bySender: map<string, seq<int>>, lastW: map<string, int>, acc: seq<Creation>, e: Creation, times: seq<int>)
    requires WindowsTrack(bySender, lastW, acc)
    requires forall s :: s in lastW ==> lastW[s] <= e.ts - SURVEY_COOLDOWN_MS
    requires times == if e.from in bySender then bySender[e.from] else []
    ensures FilterAfter(times, e.ts - SURVEY_COOLDOWN_MS) == FilterAfter(SenderTimes(acc, e.from), e.ts - SURVEY_COOLDOWN_MS)
    ensures |FilterAfter(times, e.ts - SURVEY_COOLDOWN_MS)| < MAX_SURVEYS_PER_WINDOW <==> Admits(acc, e)
  {
    assert TracksSender(bySender, lastW, acc, e.from);
    if e.from in bySender {
      FilterAfterTwice(SenderTimes(acc, e.from), lastW[e.from], e.ts - SURVEY_COOLDOWN_MS);
    }
  }

  /** Storing the new window of an admitted creation keeps the windows tracking. */
  lemma TrackAdmit(bySender: map<string, seq<int>>, lastW: map<string, int>, acc: seq<Creation>, e: Creation)
    requires WindowsTrack(bySender, lastW, acc)
    ensures WindowsTrack(
      bySender[e.from := FilterAfter(SenderTimes(acc, e.from), e.ts - SURVEY_COOLDOWN_MS) + [e.ts]],
      lastW[e.from := e.ts - SURVEY_COOLDOWN_MS], acc + [e])
  {
    AdmitOne(acc, e);
    var w := e.ts - SURVEY_COOLDOWN_MS;
    var b := bySender[e.from := FilterAfter(SenderTimes(acc, e.from), w) + [e.ts]];
    var l := lastW[e.from := w];
    forall s
      ensures TracksSender(b, l, acc + [e], s)
    {
      if s != e.from {
        OtherSender(acc, e, s);
        assert TracksSender(bySender, lastW, acc, s);
      }
    }
  }

  /** One iteration of the second loop: the rate limit and `latestCreated` for one creation. */
  method AdmitEntry(
    bySender: map<string, seq<int>>, ghost lastW: map<string, int>, latest: Entries<string, Latest>,
    ghost acc: seq<Creation>, entry: Creation)
    returns (bySender': map<string, seq<int>>, ghost lastW': map<string, int>, latest': Entries<string, Latest>)
    requires latest == LatestBy(acc) && WindowsTrack(bySender, lastW, acc)
    requires forall s :: s in lastW ==> lastW[s] <= entry.ts - SURVEY_COOLDOWN_MS
    ensures var next := if Admits(acc, entry) then acc + [entry] else acc;
      latest' == LatestBy(next) && WindowsTrack(bySender', lastW', next)
    ensures forall s :: s in lastW' ==> lastW'[s] <= entry.ts - SURVEY_COOLDOWN_MS
  {
    bySender', lastW', latest' := bySender, lastW, latest;
    var times := if entry.from in bySender then bySender[entry.from] else [];
    var windowStart := entry.ts - SURVEY_COOLDOWN_MS;
    var recent := FilterAfter(times, windowStart);
    TrackRecent(bySender, lastW, acc, entry, times);
    if |recent| >= MAX_SURVEYS_PER_WINDOW {
      return;
    }
    TrackAdmit(bySender, lastW, acc, entry);
    LatestStep(acc, entry);
    recent := recent + [entry.ts];
    bySender' := bySender[entry.from := recent];
    lastW' := lastW[entry.from := windowStart];
    var existing := Find(latest, entry.survey.id);
    if existing.None? || entry.ts >= existing.value.ts {
      latest' := Put(latest, entry.survey.id, Latest(entry.survey, entry.ts));
    }
  }

  /**
   * The second loop: the rate limit with one window of times per sender,
   * and the latest admitted creation per survey id.
   */
  method AdmitAll(sorted: seq<Creation>) returns (latest: Entries<string, Latest>)
    requires TimeOrdered(sorted)
    ensures latest == LatestBy(Admit(sorted))
  {
    var bySender: map<string, seq<int>> := map[];
    ghost var lastW: map<string, int> := map[];
    latest := [];
    var i := 0;
    ghost var acc: seq<Creation> := [];
    assert sorted[..0] == [] && Admit(sorted[..0]) == [];
    while i < |sorted|
      invariant 0 <= i <= |sorted|
      invariant acc == Admit(sorted[..i])
      invariant latest == LatestBy(acc)
      invariant WindowsTrack(bySender, lastW, acc)
      invariant i < |sorted| ==> forall s :: s in lastW ==> lastW[s] <= sorted[i].ts - SURVEY_COOLDOWN_MS
    {
      AdmitPrefix(sorted, i);
      bySender, lastW, latest := AdmitEntry(bySender, lastW, latest, acc, sorted[i]);
      acc := Admit(sorted[..i + 1]);
      if i + 1 < |sorted| {
        assert sorted[i].ts <= sorted[i + 1].ts;
      }
      i := i + 1;
    }
    assert sorted[..i] == sorted;
  }

  /** `rebuildSurveys`: the survey list of a history, newest first, at the clock's time. */
  method RebuildSurveys(txs: seq<Json>, appPubkey: string, env: Env) returns (surveys: seq<SurveyView>)
    ensures surveys == SurveyList(txs, appPubkey, env)
  {
    var all := CollectCreations(txs, appPubkey, env);
    var sorted := Ranking.SortDesc(all, OldestFirst);
    OldestFirstOrdered(all);
    var latest := AdmitAll(sorted);
    var listed := Ranking.SortDesc(Values(latest), NewestFirst);
    surveys := Views(listed, env.nowMs);
  }
}
