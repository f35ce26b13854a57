/**
 * The CIS bot's results for one survey: its own options, the option each
 * sender added first, the latest vote of each sender for an existing
 * option, and the count of votes per option.
 */
module CisResults {
  import opened Options
  import opened JsValues
  import opened CisText
  import opened OrderedMaps
  import Ranking

  /** An entry of `optionsByKey`; a survey's own options have no `userAdded`/`addedBy`. */
  datatype OptionEntry = OptionEntry(key: string, labelText: string, userAdded: bool, addedBy: Option<string>)

  /** An `add_option` request of `oldestOptionBySender`. */
  datatype Added = Added(key: string, labelText: string, ts: int, from: string)

  /** An entry of `users`. */
  datatype Voter = Voter(from: string, username: string, usernameTs: int, voteKey: Option<string>, voteTs: int)

  datatype Results = Results(
    options: seq<OptionEntry>, counts: map<string, int>, botEntry: Option<Voter>, botAddedOption: Option<Added>)

  /** A transaction the results read (one `parseCisTx` accepts): its sender, time and memo. */
  datatype Signed = Signed(from: string, ts: int, memo: Json)

  function SignedOf(raw: Json, appPubkey: string, env: Env): (r: Option<Signed>)
    ensures r.Some? <==> ParseCisTx(raw, appPubkey, env).Some?
    ensures r.Some? ==> r.value.from != []
  {
    var p := ParseCisTx(raw, appPubkey, env);
    if p.None? then None else Some(Signed(p.value.tx.from.value, p.value.tx.ts, p.value.memo))
  }

  /** The transactions of a history that the results read, in order. */
  function SignedTxs(txs: seq<Json>, appPubkey: string, env: Env): (r: seq<Signed>)
    ensures |r| <= |txs|
    decreases |txs|
  {
    if txs == [] then []
    else
      var s := SignedOf(txs[|txs| - 1], appPubkey, env);
      SignedTxs(txs[..|txs| - 1], appPubkey, env) + (if s.Some? then [s.value] else [])
  }

  // ------------------------------------------------------------------ options

  /** The survey's own options by key; an option without a key is skipped. */
  function BaseOptions(opts: seq<SurveyOption>): Entries<string, OptionEntry>
    decreases |opts|
  {
    if opts == [] then []
    else
      var m := BaseOptions(opts[..|opts| - 1]);
      var o := opts[|opts| - 1];
      if o.key == [] then m else Put(m, o.key, OptionEntry(o.key, o.labelText, false, None))
  }

  /** Every keyed option of the survey is in the map, under its key, once. */
  lemma {:induction false} BaseOptionsKeyed(opts: seq<SurveyOption>, k: string)
    ensures KeysDistinct(BaseOptions(opts))
    ensures Find(BaseOptions(opts), k).Some? <==> k != [] && exists i :: 0 <= i < |opts| && opts[i].key == k
    ensures Find(BaseOptions(opts), k).Some? ==> Find(BaseOptions(opts), k).value.key == k
    decreases |opts|
  {
    if opts != [] {
      var init := opts[..|opts| - 1];
      var o := opts[|opts| - 1];
      assert opts == init + [o];
      var m := BaseOptions(init);
      BaseOptionsKeyed(init, k);
      assert forall i :: 0 <= i < |init| ==> opts[i] == init[i];
      assert (exists i :: 0 <= i < |opts| && opts[i].key == k) <==>
        (exists i :: 0 <= i < |init| && init[i].key == k) || o.key == k;
      if o.key != [] {
        var e := OptionEntry(o.key, o.labelText, false, None);
        assert BaseOptions(opts) == Put(m, o.key, e);
        PutFind(m, o.key, e, k);
      } else {
        assert BaseOptions(opts) == m;
      }
    }
  }

  /** The first loop of `computeResults`. */
  method CollectBaseOptions(opts: seq<SurveyOption>) returns (m: Entries<string, OptionEntry>)
    ensures m == BaseOptions(opts)
  {
    m := [];
    var i := 0;
    while i < |opts|
      invariant 0 <= i <= |opts|
      invariant m == BaseOptions(opts[..i])
    {
      assert opts[..i + 1][..i] == opts[..i];
      var o := opts[i];
      if o.key != [] {
        m := Put(m, o.key, OptionEntry(o.key, o.labelText, false, None));
      }
      i := i + 1;
    }
    assert opts[..i] == opts;
  }

  /** `optionObj`: the `option` field when it is a non-null object. */
  function OptionObject(memo: Json): Json
  {
    var o := Get(memo, "option");
    if Truthy(o) && IsObjectLike(o) then o else Null
  }

  /** A present field of the option object, as trimmed text, or None. */
  function OptionText(optionObj: Json, field: string): Option<string>
  {
    if Truthy(optionObj) && Present(Get(optionObj, field)) then Some(Trim(ToStr(Get(optionObj, field)))) else None
  }

  /**
   * The `add_option` request a transaction carries for the survey: the
   * label must be non-blank; its key is the given key, else the label's
   * slug, else one built from the sender and the time.
   */
  function AddedOf(tx: Signed, surveyId: string): (r: Option<Added>)
    ensures r.Some? ==>
      Get(tx.memo, "type") == Str("add_option") && StringOrNull(Get(tx.memo, "survey")) == Some(surveyId)
      && r.value.from == tx.from && r.value.ts == tx.ts
    ensures r.Some? ==> r.value.labelText != [] && r.value.key != []
    ensures r.Some? ==> OptionText(OptionObject(tx.memo), "label") == Some(r.value.labelText)
  {
    if Get(tx.memo, "type") != Str("add_option") then None
    else if StringOrNull(Get(tx.memo, "survey")) != Some(surveyId) then None
    else
      var optionObj := OptionObject(tx.memo);
      var given := OptionText(optionObj, "label");
      var labelText := if given.Some? then given.value else "";
      if labelText == [] then None
      else
        var givenKey := OptionText(optionObj, "key");
        var rawKey := if givenKey.Some? then givenKey.value else Slugify(labelText);
        var key := if rawKey != [] then rawKey else "opt_" + Last6(Str(tx.from)) + "_" + IntToString(tx.ts);
        Some(Added(key, labelText, tx.ts, tx.from))
  }

  /** The requests of a history, in history order. */
  function AddRequests(txs: seq<Signed>, surveyId: string): seq<Added>
    decreases |txs|
  {
    if txs == [] then []
    else
      var a := AddedOf(txs[|txs| - 1], surveyId);
      AddRequests(txs[..|txs| - 1], surveyId) + (if a.Some? then [a.value] else [])
  }

  /** `oldestOptionBySender`: a request replaces the stored one only when strictly older. */
  function OldestBy(reqs: seq<Added>): Entries<string, Added>
    decreases |reqs|
  {
    if reqs == [] then []
    else
      var m := OldestBy(reqs[..|reqs| - 1]);
      var c := reqs[|reqs| - 1];
      var prev := Find(m, c.from);
      if prev.None? || c.ts < prev.value.ts then Put(m, c.from, c) else m
  }

  /** `a` is the first of the oldest requests of its sender. */
  ghost predicate FirstOldest(reqs: seq<Added>, from: string, a: Added)
  {
    a.from == from
    && (exists k :: 0 <= k < |reqs| && reqs[k] == a && forall j :: 0 <= j < k && reqs[j].from == from ==> reqs[j].ts > a.ts)
    && forall j :: 0 <= j < |reqs| && reqs[j].from == from ==> a.ts <= reqs[j].ts
  }

  /**
   * Each sender's oldest request wins, the first one among equally old
   * ones; a sender without requests has no entry.
   */
  lemma {:induction false} OldestWins(reqs: seq<Added>, from: string)
    ensures KeysDistinct(OldestBy(reqs))
    ensures Find(OldestBy(reqs), from).None? <==> forall j :: 0 <= j < |reqs| ==> reqs[j].from != from
    ensures Find(OldestBy(reqs), from).Some? ==> FirstOldest(reqs, from, Find(OldestBy(reqs), from).value)
    decreases |reqs|
  {
    if reqs != [] {
      var init := reqs[..|reqs| - 1];
      var c := reqs[|reqs| - 1];
      assert reqs == init + [c];
      var m := OldestBy(init);
      OldestWins(init, from);
      OldestWins(init, c.from);
      var prev := Find(m, c.from);
      var replaced := prev.None? || c.ts < prev.value.ts;
      if replaced {
        assert OldestBy(reqs) == Put(m, c.from, c);
        PutFind(m, c.from, c, from);
        if from == c.from {
          NewOldest(init, c, prev);
        } else {
          LiftOldest(init, c, from, Find(m, from));
        }
      } else {
        assert OldestBy(reqs) == m;
        LiftOldest(init, c, from, Find(m, from));
      }
    }
  }

  /** A request strictly older than its sender's stored one (or their first) is the new first oldest. */
  lemma NewOldest(init: seq<Added>, c: Added, prev: Option<Added>)
    requires prev.None? <==> forall j :: 0 <= j < |init| ==> init[j].from != c.from
    requires prev.Some? ==> FirstOldest(init, c.from, prev.value)
    requires prev.None? || c.ts < prev.value.ts
    ensures FirstOldest(init + [c], c.from, c)
  {
    var reqs := init + [c];
    assert reqs[|init|] == c;
    forall j | 0 <= j < |init| && reqs[j].from == c.from
      ensures reqs[j].ts > c.ts
    {
      assert reqs[j] == init[j];
    }
  }

  /** What held of the prefix holds after a request that did not change the sender's entry. */
  lemma LiftOldest(init: seq<Added>, c: Added, from: string, r: Option<Added>)
    requires r == Find(OldestBy(init), from)
    requires Find(OldestBy(init), from).None? <==> forall j :: 0 <= j < |init| ==> init[j].from != from
    requires r.Some? ==> FirstOldest(init, from, r.value)
    requires c.from != from || (r.Some? && r.value.ts <= c.ts)
    ensures r.None? <==> forall j :: 0 <= j < |init + [c]| ==> (init + [c])[j].from != from
    ensures r.Some? ==> FirstOldest(init + [c], from, r.value)
  {
    var reqs := init + [c];
    if r.Some? {
      var a := r.value;
      var k :| 0 <= k < |init| && init[k] == a && forall j :: 0 <= j < k && init[j].from == from ==> init[j].ts > a.ts;
      assert reqs[k] == a;
      forall j | 0 <= j < |reqs| && reqs[j].from == from
        ensures a.ts <= reqs[j].ts
      {
        if j < |init| {
          assert init[j] == reqs[j];
        }
      }
    } else {
      forall j | 0 <= j < |reqs|
        ensures reqs[j].from != from
      {
        if j < |init| {
          assert init[j] == reqs[j];
        }
      }
    }
  }

  lemma SignedStep(txs: seq<Json>, i: nat, appPubkey: string, env: Env)
    requires i < |txs|
    ensures var s := SignedOf(txs[i], appPubkey, env);
      SignedTxs(txs[..i + 1], appPubkey, env) == SignedTxs(txs[..i], appPubkey, env) + (if s.Some? then [s.value] else [])
  {
    assert txs[..i + 1][..i] == txs[..i];
  }

  lemma AddRequestsSnoc(seen: seq<Signed>, tx: Signed, surveyId: string)
    ensures var a := AddedOf(tx, surveyId);
      AddRequests(seen + [tx], surveyId) == AddRequests(seen, surveyId) + (if a.Some? then [a.value] else [])
  {
    assert (seen + [tx])[..|seen|] == seen;
  }

  lemma OldestSnoc(reqs: seq<Added>, a: Added)
    ensures OldestBy(reqs + [a]) ==
      var m := OldestBy(reqs);
      var prev := Find(m, a.from);
      if prev.None? || a.ts < prev.value.ts then Put(m, a.from, a) else m
  {
    assert (reqs + [a])[..|reqs|] == reqs;
  }

  /** The second loop: the oldest request per sender. */
  method CollectRequests(txs: seq<Json>, appPubkey: string, env: Env, surveyId: string)
    returns (oldest: Entries<string, Added>)
    ensures oldest == OldestBy(AddRequests(SignedTxs(txs, appPubkey, env), surveyId))
  {
    oldest := [];
    var i := 0;
    ghost var seen: seq<Signed> := [];
    ghost var reqs: seq<Added> := [];
    assert txs[..0] == [] && SignedTxs(txs[..0], appPubkey, env) == [];
    while i < |txs|
      invariant 0 <= i <= |txs|
      invariant seen == SignedTxs(txs[..i], appPubkey, env)
      invariant reqs == AddRequests(seen, surveyId)
      invariant oldest == OldestBy(reqs)
    {
      SignedStep(txs, i, appPubkey, env);
      var s := SignedOf(txs[i], appPubkey, env);
      if s.Some? {
        AddRequestsSnoc(seen, s.value, surveyId);
        var a := AddedOf(s.value, surveyId);
        if a.Some? {
          OldestSnoc(reqs, a.value);
          var prev := Find(oldest, a.value.from);
          if prev.None? || a.value.ts < prev.value.ts {
            oldest := Put(oldest, a.value.from, a.value);
          }
          reqs := reqs + [a.value];
        } else {
          assert reqs + [] == reqs;
        }
        seen := seen + [s.value];
      } else {
        assert seen + [] == seen;
      }
      i := i + 1;
    }
    assert txs[..i] == txs;
  }

  /** `a.ts - b.ts`: the oldest request first. */
  function OldestFirst(a: Added): seq<int>
  {
    [-a.ts]
  }

  /** The key an added option is stored under: its own, else with the sender's suffix, else also with the time's last four digits. */
  function AddedKey(m: Entries<string, OptionEntry>, it: Added): string
  {
    var k1 := it.key;
    var k2 := if Has(m, k1) then k1 + "_" + Last6(Str(it.from)) else k1;
    if Has(m, k2) then k2 + "_" + Last(IntToString(it.ts), 4) else k2
  }

  function AddedEntry(m: Entries<string, OptionEntry>, it: Added): OptionEntry
  {
    OptionEntry(AddedKey(m, it), it.labelText, true, Some(it.from))
  }

  /** The merge loop: each added option, oldest first, under its key. */
  function MergeAdded(m: Entries<string, OptionEntry>, added: seq<Added>): Entries<string, OptionEntry>
    decreases |added|
  {
    if added == [] then m
    else
      var before := MergeAdded(m, added[..|added| - 1]);
      var it := added[|added| - 1];
      Put(before, AddedKey(before, it), AddedEntry(before, it))
  }

  /**
   * A colliding key gets the suffixes: an added option keeps its own key
   * when it is free, else the first free of the two suffixed keys, and
   * only when all three are taken does it replace the option stored under
   * the last one. Apart from that, no option changes and the new one is
   * found under its key.
   */
  lemma MergeOne(m: Entries<string, OptionEntry>, it: Added, other: string)
    requires KeysDistinct(m)
    ensures var k := AddedKey(m, it);
      var s1 := it.key + "_" + Last6(Str(it.from));
      var s2 := s1 + "_" + Last(IntToString(it.ts), 4);
      (!Has(m, it.key) ==> k == it.key)
      && (Has(m, it.key) && !Has(m, s1) ==> k == s1)
      && (Has(m, it.key) && Has(m, s1) ==> k == s2)
    ensures var k := AddedKey(m, it);
      KeysDistinct(Put(m, k, AddedEntry(m, it)))
      && Find(Put(m, k, AddedEntry(m, it)), k) == Some(AddedEntry(m, it))
      && (other != k ==> Find(Put(m, k, AddedEntry(m, it)), other) == Find(m, other))
      && (Has(m, other) ==> Has(Put(m, k, AddedEntry(m, it)), other))
  {
    var k := AddedKey(m, it);
    PutFind(m, k, AddedEntry(m, it), other);
    if Has(m, other) && other != k {
      assert Find(m, other).Some?;
    }
  }

  /** Merging never loses an option key, and the map keeps one entry per key. */
  lemma {:induction false} MergeKeepsKeys(m: Entries<string, OptionEntry>, added: seq<Added>, k: string)
    requires KeysDistinct(m)
    ensures KeysDistinct(MergeAdded(m, added))
    ensures Has(m, k) ==> Has(MergeAdded(m, added), k)
    decreases |added|
  {
    if added != [] {
      MergeKeepsKeys(m, added[..|added| - 1], k);
      MergeOne(MergeAdded(m, added[..|added| - 1]), added[|added| - 1], k);
    }
  }

  /** The merge loop of `computeResults`. */
  method MergeOptions(base: Entries<string, OptionEntry>, added: seq<Added>) returns (m: Entries<string, OptionEntry>)
    ensures m == MergeAdded(base, added)
  {
    m := base;
    var i := 0;
    while i < |added|
      invariant 0 <= i <= |added|
      invariant m == MergeAdded(base, added[..i])
    {
      assert added[..i + 1][..i] == added[..i];
      var it := added[i];
      var key := it.key;
      if Has(m, key) {
        key := key + "_" + Last6(Str(it.from));
      }
      if Has(m, key) {
        key := key + "_" + Last(IntToString(it.ts), 4);
      }
      m := Put(m, key, OptionEntry(key, it.labelText, true, Some(it.from)));
      i := i + 1;
    }
    assert added[..i] == added;
  }

  // -------------------------------------------------------------------- votes

  predicate IsOptionKey(options: seq<OptionEntry>, k: string)
  {
    exists i :: 0 <= i < |options| && options[i].key == k
  }

  /** The trimmed choice of a `vote` memo for this survey (or for no survey), else None. */
  function VoteKeyOf(memo: Json, surveyId: string): Option<string>
  {
    if Get(memo, "type") != Str("vote") then None
    else
      var sv := StringOrNull(Get(memo, "survey"));
      var ch := if Present(Get(memo, "choice")) then Some(ToStr(Get(memo, "choice"))) else StringOrNull(Get(memo, "vote"));
      if sv.None? || sv == Some("") || sv == Some(surveyId) then
        (if ch.None? then None else Some(Trim(ch.value)))
      else None
  }

  /** The option a transaction votes for, if it names an existing one. */
  function CastVote(tx: Signed, surveyId: string, options: seq<OptionEntry>): (r: Option<string>)
    ensures r.Some? ==> r.value != [] && IsOptionKey(options, r.value)
  {
    if Get(tx.memo, "type") == Str("set_username") then None
    else
      var vk := VoteKeyOf(tx.memo, surveyId);
      if vk.Some? && vk.value != [] && IsOptionKey(options, vk.value) then vk else None
  }

  function NewVoter(from: string): Voter
  {
    Voter(from, DeriveDefaultUsername(Str(from)), 0, None, 0)
  }

  /** A voter's entry after one of their transactions: renamed, or given a vote not older than theirs. */
  function Updated(entry: Voter, tx: Signed, surveyId: string, options: seq<OptionEntry>): (r: Voter)
    ensures r.from == entry.from && r.voteTs >= entry.voteTs
    ensures (r.voteKey == entry.voteKey && r.voteTs == entry.voteTs)
      || (r.voteKey == CastVote(tx, surveyId, options) && r.voteKey.Some? && r.voteTs == tx.ts)
    ensures CastVote(tx, surveyId, options).Some? ==> tx.ts <= r.voteTs
    ensures CastVote(tx, surveyId, options).Some? && tx.ts >= entry.voteTs ==>
      r.voteKey == CastVote(tx, surveyId, options) && r.voteTs == tx.ts
  {
    if Get(tx.memo, "type") == Str("set_username") then
      if tx.ts >= entry.usernameTs then
        var name := Get(tx.memo, "username");
        entry.(username := if Truthy(name) then ToStr(name) else entry.username, usernameTs := tx.ts)
      else entry
    else
      var vk := CastVote(tx, surveyId, options);
      if vk.Some? && tx.ts >= entry.voteTs then entry.(voteKey := vk, voteTs := tx.ts) else entry
  }

  /** The entry of a sender before a transaction: the stored one, or a new one. */
  function EntryFor(users: Entries<string, Voter>, from: string): Voter
  {
    var found := Find(users, from);
    if found.Some? then found.value else NewVoter(from)
  }

  /** `users` after the tally loop: every transaction registers its sender, and may rename them or record their vote. */
  function UsersOf(txs: seq<Signed>, surveyId: string, options: seq<OptionEntry>): Entries<string, Voter>
    decreases |txs|
  {
    if txs == [] then []
    else
      var users := UsersOf(txs[..|txs| - 1], surveyId, options);
      var tx := txs[|txs| - 1];
      Put(users, tx.from, Updated(EntryFor(users, tx.from), tx, surveyId, options))
  }

  /** The vote a transaction casts from `from`, with its time. */
  function VoteFrom(tx: Signed, surveyId: string, options: seq<OptionEntry>, from: string): Option<(string, int)>
  {
    if tx.from != from then None
    else
      var vk := CastVote(tx, surveyId, options);
      if vk.None? then None else Some((vk.value, tx.ts))
  }

  /** The facts kept about the entry of one sender. */
  ghost predicate VoterFacts(txs: seq<Signed>, surveyId: string, options: seq<OptionEntry>, from: string, v: Voter)
  {
    v.from == from && v.voteTs >= 0
    // without a vote the time stays at its start, 0
    && (v.voteKey.None? ==> v.voteTs == 0)
    && RecordedWasCast(txs, surveyId, options, from, v)
    && NoneLater(txs, surveyId, options, from, v)
    && CastIsRecorded(txs, surveyId, options, from, v)
  }

  /**
   * The vote recorded is one the sender cast, at the recorded time, and
   * every vote they cast after it is older: among votes at the same time
   * the later one wins.
   */
  ghost predicate RecordedWasCast(txs: seq<Signed>, surveyId: string, options: seq<OptionEntry>, from: string, v: Voter)
  {
    v.voteKey.Some? ==> exists i :: 0 <= i < |txs| && RecordedAt(txs, surveyId, options, from, v, i)
  }

  /** The vote of `txs[i]` is the recorded one, and no later vote of the sender is as recent. */
  ghost predicate RecordedAt(txs: seq<Signed>, surveyId: string, options: seq<OptionEntry>, from: string, v: Voter, i: nat)
    requires i < |txs|
  {
    && v.voteKey.Some?
    && VoteFrom(txs[i], surveyId, options, from) == Some((v.voteKey.value, v.voteTs))
    && forall j :: i < j < |txs| && VoteFrom(txs[j], surveyId, options, from).Some? ==>
         VoteFrom(txs[j], surveyId, options, from).value.1 < v.voteTs
  }

  /** None of the sender's votes is later than the recorded time. */
  ghost predicate NoneLater(txs: seq<Signed>, surveyId: string, options: seq<OptionEntry>, from: string, v: Voter)
  {
    forall i :: 0 <= i < |txs| && VoteFrom(txs[i], surveyId, options, from).Some? ==>
      VoteFrom(txs[i], surveyId, options, from).value.1 <= v.voteTs
  }

  /** A sender who cast a vote timed at 0 or later has one recorded. */
  ghost predicate CastIsRecorded(txs: seq<Signed>, surveyId: string, options: seq<OptionEntry>, from: string, v: Voter)
  {
    (exists i :: 0 <= i < |txs| && VoteFrom(txs[i], surveyId, options, from).Some? &&
       VoteFrom(txs[i], surveyId, options, from).value.1 >= 0) ==> v.voteKey.Some?
  }

  /**
   * One entry per sender; a sender has an entry exactly when they sent a
   * transaction, and its vote, if any, is the latest vote they cast for an
   * existing option.
   */
  lemma {:induction false} LatestVoteWins(txs: seq<Signed>, surveyId: string, options: seq<OptionEntry>, from: string)
    ensures KeysDistinct(UsersOf(txs, surveyId, options))
    ensures Find(UsersOf(txs, surveyId, options), from).Some? <==> exists i :: 0 <= i < |txs| && txs[i].from == from
    ensures Find(UsersOf(txs, surveyId, options), from).Some? ==>
      VoterFacts(txs, surveyId, options, from, Find(UsersOf(txs, surveyId, options), from).value)
    decreases |txs|
  {
    if txs != [] {
      var init := txs[..|txs| - 1];
      var tx := txs[|txs| - 1];
      assert txs == init + [tx];
      var users := UsersOf(init, surveyId, options);
      LatestVoteWins(init, surveyId, options, from);
      LatestVoteWins(init, surveyId, options, tx.from);
      var updated := Updated(EntryFor(users, tx.from), tx, surveyId, options);
      UsersSnoc(init, tx, surveyId, options);
      PutFind(users, tx.from, updated, from);
      if tx.from == from {
        var v := Find(users, from);
        assert txs[|init|].from == from;
        forall i | 0 <= i < |init| && v.None?
          ensures VoteFrom(init[i], surveyId, options, from).None?
        {
        }
        var entry := EntryFor(users, from);
        var cast := CastVote(tx, surveyId, options);
        assert VoteFrom(tx, surveyId, options, from) == if cast.None? then None else Some((cast.value, tx.ts));
        VoterStep(init, tx, surveyId, options, from, v, entry, updated);
      } else {
        LiftVoter(init, tx, surveyId, options, from, Find(users, from));
      }
    }
  }

  /** A transaction of another sender leaves the entry and its facts as they were. */
  lemma LiftVoter(init: seq<Signed>, tx: Signed, surveyId: string, options: seq<OptionEntry>, from: string, v: Option<Voter>)
    requires tx.from != from
    requires v.Some? <==> exists i :: 0 <= i < |init| && init[i].from == from
    requires v.Some? ==> VoterFacts(init, surveyId, options, from, v.value)
    ensures v.Some? <==> exists i :: 0 <= i < |init + [tx]| && (init + [tx])[i].from == from
    ensures v.Some? ==> VoterFacts(init + [tx], surveyId, options, from, v.value)
  {
    var txs := init + [tx];
    assert forall i :: 0 <= i < |init| ==> txs[i] == init[i];
    assert txs[|init|] == tx;
    if v.Some? {
      LiftRecorded(init, tx, surveyId, options, from, v.value);
      LiftNoneLater(init, tx, surveyId, options, from, v.value);
      LiftCastIsRecorded(init, tx, surveyId, options, from, v.value);
    }
  }

  lemma LiftRecorded(init: seq<Signed>, tx: Signed, surveyId: string, options: seq<OptionEntry>, from: string, v: Voter)
    requires tx.from != from && RecordedWasCast(init, surveyId, options, from, v)
    ensures RecordedWasCast(init + [tx], surveyId, options, from, v)
  {
    if v.voteKey.Some? {
      var txs := init + [tx];
      var i :| 0 <= i < |init| && RecordedAt(init, surveyId, options, from, v, i);
      assert txs[i] == init[i];
      forall j | i < j < |txs| && VoteFrom(txs[j], surveyId, options, from).Some?
        ensures VoteFrom(txs[j], surveyId, options, from).value.1 < v.voteTs
      {
        assert j < |init| && txs[j] == init[j];
      }
      assert RecordedAt(txs, surveyId, options, from, v, i);
    }
  }

  lemma LiftNoneLater(init: seq<Signed>, tx: Signed, surveyId: string, options: seq<OptionEntry>, from: string, v: Voter)
    requires tx.from != from && NoneLater(init, surveyId, options, from, v)
    ensures NoneLater(init + [tx], surveyId, options, from, v)
  {
    var txs := init + [tx];
    forall i | 0 <= i < |txs| && VoteFrom(txs[i], surveyId, options, from).Some?
      ensures VoteFrom(txs[i], surveyId, options, from).value.1 <= v.voteTs
    {
      assert i < |init| && txs[i] == init[i];
    }
  }

  lemma LiftCastIsRecorded(init: seq<Signed>, tx: Signed, surveyId: string, options: seq<OptionEntry>, from: string, v: Voter)
    requires tx.from != from && CastIsRecorded(init, surveyId, options, from, v)
    ensures CastIsRecorded(init + [tx], surveyId, options, from, v)
  {
    var txs := init + [tx];
    if exists i :: 0 <= i < |txs| && VoteFrom(txs[i], surveyId, options, from).Some? &&
         VoteFrom(txs[i], surveyId, options, from).value.1 >= 0 {
      var i :| 0 <= i < |txs| && VoteFrom(txs[i], surveyId, options, from).Some? &&
        VoteFrom(txs[i], surveyId, options, from).value.1 >= 0;
      assert i < |init| && txs[i] == init[i];
    }
  }

  /** The sender's own transaction: the entry, updated as `Updated` promises, keeps the facts. */
  lemma VoterStep(init: seq<Signed>, tx: Signed, surveyId: string, options: seq<OptionEntry>, from: string,
                  v: Option<Voter>, entry: Voter, updated: Voter)
    requires tx.from == from
    requires v.Some? ==> entry == v.value && VoterFacts(init, surveyId, options, from, v.value)
    requires v.None? ==> entry.from == from && entry.voteKey.None? && entry.voteTs == 0
    requires v.None? ==> forall i :: 0 <= i < |init| ==> VoteFrom(init[i], surveyId, options, from).None?
    requires updated.from == entry.from && updated.voteTs >= entry.voteTs
    requires (updated.voteKey == entry.voteKey && updated.voteTs == entry.voteTs)
      || (updated.voteKey.Some? && VoteFrom(tx, surveyId, options, from) == Some((updated.voteKey.value, updated.voteTs)))
    requires VoteFrom(tx, surveyId, options, from).Some? ==> VoteFrom(tx, surveyId, options, from).value.1 <= updated.voteTs
    requires VoteFrom(tx, surveyId, options, from).Some? && VoteFrom(tx, surveyId, options, from).value.1 >= entry.voteTs ==>
      updated.voteKey == Some(VoteFrom(tx, surveyId, options, from).value.0)
      && updated.voteTs == VoteFrom(tx, surveyId, options, from).value.1
    ensures VoterFacts(init + [tx], surveyId, options, from, updated)
  {
    var txs := init + [tx];
    assert forall i :: 0 <= i < |init| ==> txs[i] == init[i];
    assert txs[|init|] == tx;
    if updated.voteKey.None? {
      assert entry.voteKey.None? && updated.voteTs == entry.voteTs == 0;
      forall i | 0 <= i < |txs| && VoteFrom(txs[i], surveyId, options, from).Some?
        ensures VoteFrom(txs[i], surveyId, options, from).value.1 < 0
      {
        if i < |init| {
          assert txs[i] == init[i];
        }
      }
    }
    if updated.voteKey.Some? {
      if VoteFrom(tx, surveyId, options, from) == Some((updated.voteKey.value, updated.voteTs)) {
        assert RecordedAt(txs, surveyId, options, from, updated, |init|);
      } else {
        assert updated.voteKey == entry.voteKey && updated.voteTs == entry.voteTs;
        var i :| 0 <= i < |init| && RecordedAt(init, surveyId, options, from, entry, i);
        assert txs[i] == init[i];
        forall j | i < j < |txs| && VoteFrom(txs[j], surveyId, options, from).Some?
          ensures VoteFrom(txs[j], surveyId, options, from).value.1 < updated.voteTs
        {
          if j < |init| {
            assert txs[j] == init[j];
          }
        }
        assert RecordedAt(txs, surveyId, options, from, updated, i);
      }
    }
    forall i | 0 <= i < |txs| && VoteFrom(txs[i], surveyId, options, from).Some?
      ensures VoteFrom(txs[i], surveyId, options, from).value.1 <= updated.voteTs
    {
      if i < |init| {
        assert txs[i] == init[i];
      }
    }
  }

  lemma UsersSnoc(seen: seq<Signed>, tx: Signed, surveyId: string, options: seq<OptionEntry>)
    ensures UsersOf(seen + [tx], surveyId, options) ==
      var users := UsersOf(seen, surveyId, options);
      Put(users, tx.from, Updated(EntryFor(users, tx.from), tx, surveyId, options))
  {
    assert (seen + [tx])[..|seen|] == seen;
  }

  /** The tally loop of `computeResults`: each transaction updates its sender's entry. */
  method CollectVoters(txs: seq<Json>, appPubkey: string, env: Env, surveyId: string, options: seq<OptionEntry>)
    returns (users: Entries<string, Voter>)
    ensures users == UsersOf(SignedTxs(txs, appPubkey, env), surveyId, options)
  {
    users := [];
    var i := 0;
    ghost var seen: seq<Signed> := [];
    assert txs[..0] == [] && SignedTxs(txs[..0], appPubkey, env) == [];
    while i < |txs|
      invariant 0 <= i <= |txs|
      invariant seen == SignedTxs(txs[..i], appPubkey, env)
      invariant users == UsersOf(seen, surveyId, options)
    {
      SignedStep(txs, i, appPubkey, env);
      var s := SignedOf(txs[i], appPubkey, env);
      if s.Some? {
        var tx := s.value;
        UsersSnoc(seen, tx, surveyId, options);
        var found := Find(users, tx.from);
        var entry := if found.Some? then found.value else NewVoter(tx.from);
        users := Put(users, tx.from, Updated(entry, tx, surveyId, options));
        seen := seen + [tx];
      } else {
        assert seen + [] == seen;
      }
      i := i + 1;
    }
    assert txs[..i] == txs;
  }

  // ------------------------------------------------------------------- counts

  /** A voter with a (non-empty) vote. */
  predicate Voted(v: Voter)
  {
    v.voteKey.Some? && v.voteKey.value != []
  }

  /** The number of voters whose vote is `k`. */
  function CountOf(voters: seq<Voter>, k: string): (n: nat)
    ensures n <= |voters|
    decreases |voters|
  {
    if voters == [] then 0
    else
      var v := voters[|voters| - 1];
      CountOf(voters[..|voters| - 1], k) + (if Voted(v) && v.voteKey.value == k then 1 else 0)
  }

  function OptionKeys(options: seq<OptionEntry>): set<string>
  {
    set i | 0 <= i < |options| :: options[i].key
  }

  function VotedKeys(voters: seq<Voter>): set<string>
  {
    set i | 0 <= i < |voters| && Voted(voters[i]) :: voters[i].voteKey.value
  }

  /** `counts`: every option starts at 0, and each voter adds one to their vote. */
  function Counts(options: seq<OptionEntry>, voters: seq<Voter>): (c: map<string, int>)
    ensures c.Keys == OptionKeys(options) + VotedKeys(voters)
  {
    map k | k in OptionKeys(options) + VotedKeys(voters) :: CountOf(voters, k)
  }

  /** `counts` holds, for every option and every cast vote, the number of voters choosing it. */
  ghost predicate Tallied(counts: map<string, int>, options: seq<OptionEntry>, voters: seq<Voter>)
  {
    counts.Keys == OptionKeys(options) + VotedKeys(voters)
    && forall k :: k in counts ==> counts[k] == CountOf(voters, k)
  }

  /** The count loops of `computeResults`. */
  method Tally(options: seq<OptionEntry>, voters: seq<Voter>) returns (counts: map<string, int>)
    ensures counts == Counts(options, voters)
  {
    counts := map[];
    var i := 0;
    while i < |options|
      invariant 0 <= i <= |options|
      invariant counts.Keys == OptionKeys(options[..i])
      invariant forall k :: k in counts ==> counts[k] == 0
    {
      OptionKeysSnoc(options, i);
      counts := counts[options[i].key := 0];
      i := i + 1;
    }
    assert options[..i] == options;
    var j := 0;
    assert voters[..0] == [];
    while j < |voters|
      invariant 0 <= j <= |voters|
      invariant Tallied(counts, options, voters[..j])
    {
      var u := voters[j];
      VoteStep(counts, options, voters, j);
      if Voted(u) {
        var k := u.voteKey.value;
        var before := if k in counts then counts[k] else 0;
        counts := counts[k := before + 1];
      }
      j := j + 1;
    }
    assert voters[..j] == voters;
  }

  /** One more voter: their vote, if any, adds one to its count (starting from 0). */
  lemma VoteStep(counts: map<string, int>, options: seq<OptionEntry>, voters: seq<Voter>, j: int)
    requires 0 <= j < |voters| && Tallied(counts, options, voters[..j])
    ensures var u := voters[j];
      !Voted(u) ==> Tallied(counts, options, voters[..j + 1])
    ensures var u := voters[j];
      Voted(u) ==> var k := u.voteKey.value;
        Tallied(counts[k := (if k in counts then counts[k] else 0) + 1], options, voters[..j + 1])
  {
    var u := voters[j];
    VotersSnoc(voters, j);
    if Voted(u) {
      var k := u.voteKey.value;
      if k !in counts {
        NoVotesCountZero(voters[..j], k);
      }
    }
  }

  lemma OptionKeysSnoc(options: seq<OptionEntry>, i: int)
    requires 0 <= i < |options|
    ensures OptionKeys(options[..i + 1]) == OptionKeys(options[..i]) + {options[i].key}
  {
    assert forall j :: 0 <= j < i ==> options[..i + 1][j] == options[..i][j];
  }

  lemma VotersSnoc(voters: seq<Voter>, j: int)
    requires 0 <= j < |voters|
    ensures var u := voters[j];
      && VotedKeys(voters[..j + 1]) == VotedKeys(voters[..j]) + (if Voted(u) then {u.voteKey.value} else {})
      && forall k :: CountOf(voters[..j + 1], k) == CountOf(voters[..j], k) + (if Voted(u) && u.voteKey.value == k then 1 else 0)
  {
    assert voters[..j + 1][..j] == voters[..j];
    assert forall t :: 0 <= t < j ==> voters[..j + 1][t] == voters[..j][t];
    assert voters[..j + 1][j] == voters[j];
  }

  /** A key no voter voted for counts 0: every option starts at 0. */
  lemma {:induction false} NoVotesCountZero(voters: seq<Voter>, k: string)
    requires k !in VotedKeys(voters)
    ensures CountOf(voters, k) == 0
    decreases |voters|
  {
    if voters != [] {
      var init := voters[..|voters| - 1];
      var n := |voters| - 1;
      forall i | 0 <= i < |init| && Voted(init[i])
        ensures init[i].voteKey.value in VotedKeys(voters)
      {
        assert voters[i] == init[i];
      }
      NoVotesCountZero(init, k);
      assert Voted(voters[n]) ==> voters[n].voteKey.value in VotedKeys(voters);
    }
  }

  /** Every vote cast among `voters` names one of `options`. */
  predicate VotesForOptions(options: seq<OptionEntry>, voters: seq<Voter>)
  {
    forall i :: 0 <= i < |voters| && Voted(voters[i]) ==> IsOptionKey(options, voters[i].voteKey.value)
  }

  /** When every vote is for an existing option, exactly the options are counted. */
  lemma CountsOnlyOptions(options: seq<OptionEntry>, voters: seq<Voter>)
    requires VotesForOptions(options, voters)
    ensures Counts(options, voters).Keys == OptionKeys(options)
  {
    forall k | k in VotedKeys(voters)
      ensures k in OptionKeys(options)
    {
      var i :| 0 <= i < |voters| && Voted(voters[i]) && voters[i].voteKey.value == k;
      var j :| 0 <= j < |options| && options[j].key == k;
    }
  }

  /** Every recorded vote names an option. */
  lemma UsersVoteForOptions(txs: seq<Signed>, surveyId: string, options: seq<OptionEntry>)
    ensures VotesForOptions(options, Values(UsersOf(txs, surveyId, options)))
  {
    var users := UsersOf(txs, surveyId, options);
    var voters := Values(users);
    forall i | 0 <= i < |voters| && Voted(voters[i])
      ensures IsOptionKey(options, voters[i].voteKey.value)
    {
      LatestVoteWins(txs, surveyId, options, users[i].0);
      FindSpec(users, users[i].0);
      var j :| 0 <= j < |txs| && VoteFrom(txs[j], surveyId, options, users[i].0) == Some((voters[i].voteKey.value, voters[i].voteTs));
    }
  }

  // ------------------------------------------------------------------ results

  /** `botAddress ? map.get(botAddress) || null : null` */
  function BotLookup<V>(m: Entries<string, V>, botAddress: Option<string>): (r: Option<V>)
    ensures r.Some? ==> botAddress.Some? && Has(m, botAddress.value)
  {
    if botAddress.None? || botAddress.value == [] then None else Find(m, botAddress.value)
  }

  /** The options a survey ends up with: its own, then the added ones oldest first. */
  function AllOptions(txs: seq<Signed>, survey: Survey): seq<OptionEntry>
  {
    var oldest := OldestBy(AddRequests(txs, survey.id));
    Values(MergeAdded(BaseOptions(survey.options), Ranking.SortDesc(Values(oldest), OldestFirst)))
  }

  /** The results of a survey over a history. */
  function ResultsOf(txs: seq<Json>, appPubkey: string, env: Env, survey: Survey, botAddress: Option<string>): Results
  {
    var signed := SignedTxs(txs, appPubkey, env);
    var oldest := OldestBy(AddRequests(signed, survey.id));
    var options := AllOptions(signed, survey);
    var users := UsersOf(signed, survey.id, options);
    Results(options, Counts(options, Values(users)), BotLookup(users, botAddress), BotLookup(oldest, botAddress))
  }

  /** `computeResults` */
  method ComputeResults(txs: seq<Json>, appPubkey: string, env: Env, survey: Survey, botAddress: Option<string>)
    returns (r: Results)
    ensures r == ResultsOf(txs, appPubkey, env, survey, botAddress)
  {
    var base := CollectBaseOptions(survey.options);
    var oldest := CollectRequests(txs, appPubkey, env, survey.id);
    var added := Ranking.SortDesc(Values(oldest), OldestFirst);
    var merged := MergeOptions(base, added);
    var allOptions := Values(merged);
    var users := CollectVoters(txs, appPubkey, env, survey.id, allOptions);
    var counts := Tally(allOptions, Values(users));
    r := Results(allOptions, counts, BotLookup(users, botAddress), BotLookup(oldest, botAddress));
  }

  /**
   * Exactly the options are counted, each with the number of senders whose
   * latest vote is for it; there is one entry per sender, so each counts
   * at most once.
   */
  lemma ResultsCounts(txs: seq<Signed>, surveyId: string, options: seq<OptionEntry>, k: string)
    ensures var users := UsersOf(txs, surveyId, options);
      var counts := Counts(options, Values(users));
      counts.Keys == OptionKeys(options)
      && KeysDistinct(users)
      && (k in counts ==> counts[k] == CountOf(Values(users), k))
  {
    var users := UsersOf(txs, surveyId, options);
    UsersVoteForOptions(txs, surveyId, options);
    var voters := Values(users);
    CountsOnlyOptions(options, voters);
    LatestVoteWins(txs, surveyId, options, k);
  }
}
