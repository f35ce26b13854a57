/**
 * The survey bot's pure helpers: slugs, address suffixes and default user
 * names, transaction normalisation, survey durations and survey
 * definitions, and the filter that accepts a transaction as a CIS one.
 */
module CisText {
  import opened Options
  import opened JsValues

  const SLUG_MAX: nat := 40
  const SUFFIX_LEN: nat := 6
  const MINUTE_MS: int := 60_000
  const DAY_MS: int := 24 * 3600_000
  const DEFAULT_SURVEY_DURATION_MS: int := 7 * DAY_MS
  /** Seconds below this are taken for seconds and multiplied by 1000. */
  const SECONDS_LIMIT: int := 10_000_000_000

  // ------------------------------------------------------------------ slugs

  predicate IsSlugChar(c: char)
  {
    'a' <= c <= 'z' || '0' <= c <= '9'
  }

  /** The rest of a run of characters outside `[a-z0-9]`. */
  function DropSeparators(s: string): (r: string)
    ensures |r| <= |s| && r == s[|s| - |r|..]
    ensures r == [] || IsSlugChar(r[0])
    decreases |s|
  {
    if s != [] && !IsSlugChar(s[0]) then DropSeparators(s[1..]) else s
  }

  /** `replace(/[^a-z0-9]+/g, "_")`: every run of other characters becomes one underscore. */
  function Collapse(s: string): (r: string)
    ensures forall i :: 0 <= i < |r| ==> IsSlugChar(r[i]) || r[i] == '_'
    ensures forall i :: 0 <= i < |r| - 1 ==> r[i] != '_' || r[i + 1] != '_'
    ensures r == [] <==> s == []
    ensures s != [] ==> (r[0] == '_' <==> !IsSlugChar(s[0]))
    decreases |s|
  {
    if s == [] then []
    else if IsSlugChar(s[0]) then [s[0]] + Collapse(s[1..])
    else ['_'] + Collapse(DropSeparators(s[1..]))
  }

  function StripLeadingUnderscores(s: string): (r: string)
    ensures |r| <= |s| && r == s[|s| - |r|..]
    ensures r == [] || r[0] != '_'
    decreases |s|
  {
    if s != [] && s[0] == '_' then StripLeadingUnderscores(s[1..]) else s
  }

  function StripTrailingUnderscores(s: string): (r: string)
    ensures |r| <= |s| && r == s[..|r|]
    ensures r == [] || r[|r| - 1] != '_'
    decreases |s|
  {
    if s != [] && s[|s| - 1] == '_' then StripTrailingUnderscores(s[..|s| - 1]) else s
  }

  /** Only `[a-z0-9_]`, and never two underscores in a row. */
  predicate SlugShaped(s: string)
  {
    (forall i :: 0 <= i < |s| ==> IsSlugChar(s[i]) || s[i] == '_')
    && (forall i :: 0 <= i < |s| - 1 ==> s[i] != '_' || s[i + 1] != '_')
  }

  lemma InfixSlugShaped(s: string, a: int, b: int)
    requires SlugShaped(s) && 0 <= a <= b <= |s|
    ensures SlugShaped(s[a..b])
  {
    var t := s[a..b];
    assert forall i :: 0 <= i < |t| ==> t[i] == s[a + i];
  }

  /**
   * `slugify` on its string argument: lower-cased, runs of other characters
   * as single underscores, underscores trimmed at both ends, cut to 40.
   */
  function Slugify(s: string): (r: string)
    ensures |r| <= SLUG_MAX
    ensures SlugShaped(r)
    ensures r == [] || r[0] != '_'
  {
    var collapsed := Collapse(Lower(s));
    StrippedShaped(collapsed);
    Take(StripTrailingUnderscores(StripLeadingUnderscores(collapsed)), SLUG_MAX)
  }

  /** Trimming underscores and cutting keep the slug shape, with no underscore in front. */
  lemma StrippedShaped(collapsed: string)
    requires SlugShaped(collapsed)
    ensures var r := Take(StripTrailingUnderscores(StripLeadingUnderscores(collapsed)), SLUG_MAX);
      SlugShaped(r) && (r == [] || r[0] != '_')
  {
    var lead := StripLeadingUnderscores(collapsed);
    InfixSlugShaped(collapsed, |collapsed| - |lead|, |collapsed|);
    var stripped := StripTrailingUnderscores(lead);
    TrailingStrippedShaped(lead, stripped);
    TakeShaped(stripped, Take(stripped, SLUG_MAX));
  }

  lemma TrailingStrippedShaped(lead: string, stripped: string)
    requires SlugShaped(lead) && (lead == [] || lead[0] != '_')
    requires stripped == StripTrailingUnderscores(lead)
    ensures SlugShaped(stripped) && (stripped == [] || stripped[0] != '_')
  {
    InfixSlugShaped(lead, 0, |stripped|);
    assert stripped != [] ==> stripped[0] == lead[0];
  }

  lemma TakeShaped(stripped: string, r: string)
    requires SlugShaped(stripped) && (stripped == [] || stripped[0] != '_')
    requires r == Take(stripped, SLUG_MAX)
    ensures SlugShaped(r) && (r == [] || r[0] != '_')
  {
    InfixSlugShaped(stripped, 0, |r|);
  }

  /** `slugify(x)`: the argument is `String(x || "")`. */
  function SlugOf(j: Json): string
  {
    Slugify(ToStr(Or(j, Str(""))))
  }

  /** A lower-case string is not changed by the lower-casing step. */
  lemma LowerOfSlug(s: string)
    requires forall i :: 0 <= i < |s| ==> IsSlugChar(s[i]) || s[i] == '_'
    ensures Lower(s) == s
  {
  }

  // ------------------------------------------------------------------ names

  /** `last6`: the last six characters of `String(s || "")`, or all of a shorter string. */
  function Last6(j: Json): (r: string)
    ensures var v := ToStr(Or(j, Str("")));
      |r| == (if |v| < SUFFIX_LEN then |v| else SUFFIX_LEN) && r == v[|v| - |r|..]
  {
    Last(ToStr(Or(j, Str(""))), SUFFIX_LEN)
  }

  /** `usernameSuffix`: `_` and the last six characters, or `_unknown` for an empty address. */
  function UsernameSuffix(address: Json): string
  {
    var core := Last6(address);
    if core != [] then "_" + core else "_unknown"
  }

  /** `deriveDefaultUsername`: `user_` and the last six characters, or `user_unknown`. */
  function DeriveDefaultUsername(address: Json): (name: string)
    ensures ToStr(Or(address, Str(""))) == [] ==> name == "user_unknown"
    ensures ToStr(Or(address, Str(""))) != [] ==> name == "user_" + Last6(address) && |name| <= 11
  {
    UserSuffixJoined(address);
    "user" + UsernameSuffix(address)
  }

  lemma UserSuffixJoined(address: Json)
    ensures "user" + UsernameSuffix(address) ==
      if ToStr(Or(address, Str(""))) == [] then "user_unknown" else "user_" + Last6(address)
  {
    var core := Last6(address);
    if ToStr(Or(address, Str(""))) == [] {
      assert core == [];
      assert "user" + "_unknown" == "user_unknown";
    } else {
      assert core != [];
      assert "user" + ("_" + core) == "user_" + core;
    }
  }

  lemma DefaultUsernameOfAddress(address: string)
    requires |address| >= SUFFIX_LEN
    ensures DeriveDefaultUsername(Str(address)) == "user_" + address[|address| - SUFFIX_LEN..]
  {
    assert Or(Str(address), Str("")) == Str(address);
  }

  // ------------------------------------------------------------------ transactions

  /** `pick(obj, keys)`: the first property among `keys` that is neither null nor undefined. */
  function Pick(obj: Json, keys: seq<string>): (r: Json)
    ensures r.Null? || exists i :: 0 <= i < |keys| && r == Get(obj, keys[i]) && Present(r)
    ensures r.Null? <==> forall i :: 0 <= i < |keys| ==> !Present(Get(obj, keys[i]))
    decreases |keys|
  {
    if keys == [] then Null
    else if Present(Get(obj, keys[0])) then Get(obj, keys[0])
    else
      var r := Pick(obj, keys[1..]);
      assert forall i :: 0 < i < |keys| ==> keys[i] == keys[1..][i - 1];
      r
  }

  /** The services the timestamp heuristics need: `Date.parse` (None is NaN) and the clock. */
  datatype Env = Env(parseJson: string -> Option<Json>, parseDate: string -> Option<int>, nowMs: int)

  /**
   * The timestamp of the first usable candidate: a finite number (seconds
   * when below 1e10, then times 1000), or a non-blank string that parses.
   */
  function TimestampOf(candidates: seq<Json>, parseDate: string -> Option<int>): (r: Option<int>)
    decreases |candidates|
  {
    if candidates == [] then None
    else
      var v := candidates[0];
      if IsFiniteNumber(v) then Some(if v.n.v < SECONDS_LIMIT then v.n.v * 1000 else v.n.v)
      else if v.Str? && Trim(v.s) != [] && parseDate(v.s).Some? then parseDate(v.s)
      else TimestampOf(candidates[1..], parseDate)
  }

  /** `extractTxTimestampMs` with the survey bot's candidate order. */
  function ExtractTxTimestampMs(tx: Json, parseDate: string -> Option<int>): Option<int>
  {
    if !IsObjectLike(tx) then None
    else TimestampOf([Get(tx, "created_at"), Get(tx, "createdAt"), Get(tx, "timestamp_ms"),
      Get(tx, "timestampMs"), Get(tx, "timestamp"), Get(tx, "time")], parseDate)
  }

  /** A normalised transaction; `None` stands for `null`. */
  datatype Tx = Tx(id: Option<string>, from: Option<string>, to: Option<string>, amount: Json, memo: Option<string>, ts: int)

  function StringOrNull(j: Json): Option<string>
  {
    if Present(j) then Some(ToStr(j)) else None
  }

  /** `normalizeTx`: addresses, memo and id under their aliases; a time of 0 or none is the clock's. */
  function NormalizeTx(raw: Json, env: Env): (r: Option<Tx>)
    ensures r.Some? <==> IsObjectLike(raw)
    ensures r.Some? ==> r.value.ts != 0 || env.nowMs == 0
  {
    if !IsObjectLike(raw) then None
    else
      var from := Pick(raw, ["from_pubkey", "from", "source", "fromAddress", "from_address"]);
      var to := Pick(raw, ["destination_pubkey", "to", "destination", "toAddress", "to_address"]);
      var memo := Pick(raw, ["memo"]);
      var amount := Pick(raw, ["amount"]);
      var t := ExtractTxTimestampMs(raw, env.parseDate);
      var ts := if t.Some? && t.value != 0 then t.value else env.nowMs;
      var id := Pick(raw, ["id", "txid", "tx_id", "hash"]);
      Some(Tx(StringOrNull(id), StringOrNull(from), StringOrNull(to), amount, StringOrNull(memo), ts))
  }

  /** `parseMemo`: None for a missing memo or text that is not JSON. */
  function ParseMemo(m: Option<string>, env: Env): Option<Json>
  {
    if m.None? then None else env.parseJson(m.value)
  }

  predicate NonBlank(s: Option<string>)
  {
    s.Some? && s.value != []
  }

  /** `memo.app ? String(memo.app) : null` */
  function AppOf(memo: Json): Option<string>
  {
    if Truthy(Get(memo, "app")) then Some(ToStr(Get(memo, "app"))) else None
  }

  predicate IsCisApp(app: Option<string>)
  {
    app == Some("cis") || app == Some("exocortex")
  }

  datatype CisTx = CisTx(tx: Tx, memo: Json)

  /** `parseCisTx`: accepted only when sent to the app, from someone, with a `cis` or `exocortex` memo. */
  function ParseCisTx(raw: Json, appPubkey: string, env: Env): (r: Option<CisTx>)
    ensures r.Some? <==> (
      var t := NormalizeTx(raw, env);
      t.Some? && NonBlank(t.value.from) && NonBlank(t.value.to) && t.value.to == Some(appPubkey)
      && ParseMemo(t.value.memo, env).Some? && Truthy(ParseMemo(t.value.memo, env).value)
      && IsCisApp(AppOf(ParseMemo(t.value.memo, env).value)))
    ensures r.Some? ==>
      r.value.tx.to == Some(appPubkey) && NonBlank(r.value.tx.from) && IsCisApp(AppOf(r.value.memo)) && Truthy(r.value.memo)
  {
    var t := NormalizeTx(raw, env);
    if t.None? || !NonBlank(t.value.from) || !NonBlank(t.value.to) || t.value.to != Some(appPubkey) then None
    else
      var memo := ParseMemo(t.value.memo, env);
      if memo.None? || !Truthy(memo.value) then None
      else if !IsCisApp(AppOf(memo.value)) then None
      else Some(CisTx(t.value, memo.value))
  }

  // ------------------------------------------------------------------ surveys

  /** The durations a survey may run for: one minute or two to seven days. */
  predicate AllowedDuration(n: int)
  {
    n == MINUTE_MS || n == 2 * DAY_MS || n == 3 * DAY_MS || n == 4 * DAY_MS
    || n == 5 * DAY_MS || n == 6 * DAY_MS || n == 7 * DAY_MS
  }

  /**
   * `normalizeSurveyDurationMs`: a number is rounded, anything else goes
   * through `Number`; an allowed value is kept and everything else is seven days.
   */
  function NormalizeSurveyDurationMs(v: Json): (n: int)
    ensures AllowedDuration(n)
    ensures v.Num? && v.n.Int? && AllowedDuration(v.n.v) ==> n == v.n.v
    ensures (v.Num? && !v.n.Int?) || (v.Num? && !AllowedDuration(v.n.v)) ==> n == DEFAULT_SURVEY_DURATION_MS
  {
    var num := if v.Num? then v.n else ToNumber(v);
    if !num.Int? then DEFAULT_SURVEY_DURATION_MS
    else if AllowedDuration(num.v) then num.v
    else DEFAULT_SURVEY_DURATION_MS
  }

  datatype SurveyOption = SurveyOption(key: string, labelText: string)

  datatype Survey = Survey(id: string, title: string, question: string, activeDurationMs: int, options: seq<SurveyOption>)

  /** `String(o.field || "").trim()` */
  function TextField(o: Json, field: string): string
  {
    Trim(ToStr(Or(Get(o, field), Str(""))))
  }

  /** One entry of the `options` array at index `i`: dropped unless it is an object with a label. */
  function NormalizeOption(o: Json, i: nat): (r: Option<SurveyOption>)
    ensures r.Some? <==> Truthy(o) && IsObjectLike(o) && TextField(o, "label") != []
    ensures r.Some? ==> r.value.labelText == TextField(o, "label") && r.value.key != []
  {
    if !Truthy(o) || !IsObjectLike(o) then None
    else
      var text := TextField(o, "label");
      if text == [] then None
      else
        var k := Get(o, "key");
        var slug := Slugify(text);
        var key := if Truthy(k) then ToStr(k) else if slug != [] then slug else "opt_" + NatToString(i + 1);
        TruthyText(k);
        Some(SurveyOption(key, text))
  }

  /** A truthy value never converts to the empty string. */
  lemma TruthyText(j: Json)
    ensures Truthy(j) ==> ToStr(j) != []
  {
    if j.Num? {
      match j.n
      case Int(v) => assert IntToString(v) != [];
      case NaN =>
      case Infinity(neg) =>
    }
  }

  /** The options that survive, in their order; indices are positions in the raw array. */
  function NormalizeOptions(items: seq<Json>): (r: seq<SurveyOption>)
    ensures |r| <= |items|
    ensures Labelled(r)
    decreases |items|
  {
    if items == [] then []
    else
      var n := |items| - 1;
      var tail := KeptOption(items[n], n);
      LabelledConcat(NormalizeOptions(items[..n]), tail);
      NormalizeOptions(items[..n]) + tail
  }

  /** The entry at index `i` as zero or one options. */
  function KeptOption(o: Json, i: nat): (r: seq<SurveyOption>)
    ensures |r| <= 1 && Labelled(r)
    ensures r == [] <==> NormalizeOption(o, i).None?
  {
    var kept := NormalizeOption(o, i);
    if kept.Some? then [kept.value] else []
  }

  /** Every option has a non-empty label and a non-empty key. */
  predicate Labelled(options: seq<SurveyOption>)
  {
    forall k :: 0 <= k < |options| ==> options[k].labelText != [] && options[k].key != []
  }

  lemma LabelledConcat(a: seq<SurveyOption>, b: seq<SurveyOption>)
    requires Labelled(a) && Labelled(b)
    ensures Labelled(a + b)
  {
    assert forall k :: |a| <= k < |a + b| ==> (a + b)[k] == b[k - |a|];
  }

  /** An option without a label is dropped wherever it is. */
  lemma UnlabelledOptionDropped(items: seq<Json>, o: Json)
    requires TextField(o, "label") == []
    ensures NormalizeOptions(items + [o]) == NormalizeOptions(items)
  {
    assert (items + [o])[..|items|] == items;
  }

  /** `String(rawSurvey.id || slugify(title) || "").trim()` */
  function SurveyIdBase(raw: Json, title: string): string
  {
    var id := Get(raw, "id");
    Trim(if Truthy(id) then ToStr(id) else Slugify(title))
  }

  function OptionsRaw(raw: Json): seq<Json>
  {
    var o := Get(raw, "options");
    if o.Arr? then o.items else []
  }

  /** `normalizeSurveyDefinition`: null unless title, question and id are all non-blank. */
  function NormalizeSurveyDefinition(raw: Json): (r: Option<Survey>)
    ensures r.Some? <==> (Truthy(raw) && IsObjectLike(raw) && TextField(raw, "title") != []
      && TextField(raw, "question") != [] && SurveyIdBase(raw, TextField(raw, "title")) != [])
    ensures r.Some? ==> (r.value.id != [] && r.value.title != [] && r.value.question != []
      && AllowedDuration(r.value.activeDurationMs) && r.value.options == NormalizeOptions(OptionsRaw(raw)))
  {
    if !Truthy(raw) || !IsObjectLike(raw) then None
    else
      var title := TextField(raw, "title");
      var question := TextField(raw, "question");
      var active := Get(raw, "active_duration_ms");
      var duration := NormalizeSurveyDurationMs(if Present(active) then active else Get(raw, "duration_ms"));
      var options := NormalizeOptions(OptionsRaw(raw));
      if title == [] || question == [] then None
      else
        var id := SurveyIdBase(raw, title);
        if id == [] then None
        else Some(Survey(id, title, question, duration, options))
  }
}
