/**
 * The tetris arena server: it folds the chain's transactions into a live
 * leaderboard. A transaction counts once (by id) and only when sent to the
 * app; a player's row is replaced only by a strictly higher score; the
 * board is re-sorted by score with ranks 1..n after every change; a
 * username change also renames the player's row. The leaderboard endpoint
 * pages through the board.
 */
module TetrisArenaServer {
  import opened Options
  import opened JsValues
  import opened Boards
  import CisText
  import Ranking
  import Logic = TetrisArenaLogic

  const DEFAULT_APP_PUBKEY: string := "ut1_tetris_arena_demo_pk_"
  const APP_NAME: string := "tetris_arena"
  const STATE_ROWS: nat := 200
  const DEFAULT_LIMIT: int := 100
  const MAX_LIMIT: int := 500

  /** A leaderboard entry; the same object is also the player's best in `scoresByPlayer`. */
  datatype Entry = Entry(from: Json, username: Json, score: Json, level: Json, lines: Json, ts: int, txId: Json,
    rank: int)

  const EntryFrom: Entry -> Json := (e: Entry) => e.from

  /** `b.score - a.score` orders by `Number(score)`. */
  const EntryKey: Entry -> seq<int> := (e: Entry) => Logic.OrderKey(e.score)

  /** `!currentBest || entry.score > currentBest.score`: the sender has no best yet, or `>` holds. */
  predicate BeatsBest(best: map<string, Entry>, key: string, entry: Entry)
  {
    key !in best || JsGreater(entry.score, best[key].score)
  }

  /** Everything `processTransaction` reads and writes. */
  datatype Server = Server(
    seenTxIds: set<Json>,
    leaderboard: seq<Entry>,
    usernames: map<string, Json>,
    scoresByPlayer: map<string, Entry>,
    txsByPlayer: map<string, seq<Logic.ArenaTx>>,
    scoreCount: int,
    usernameCount: int)

  const Empty: Server := Server({}, [], map[], map[], map[], 0, 0)

  /** `process.env.APP_PUBKEY || 'ut1_tetris_arena_demo_pk_'` */
  function AppPubkey(configured: string): (r: string)
    ensures configured != [] ==> r == configured
    ensures configured == [] ==> r == DEFAULT_APP_PUBKEY
  {
    if configured != [] then configured else DEFAULT_APP_PUBKEY
  }

  /** The first guard: a sender, the app as recipient, an id, and an id not seen before. */
  function Admit(st: Server, raw: Json, appPubkey: string, env: CisText.Env): (r: Option<Logic.ArenaTx>)
    ensures r.Some? <==> (
      var t := Logic.NormalizeTx(raw, env);
      && t.Some? && Truthy(t.value.from) && Truthy(t.value.to) && t.value.to == Str(appPubkey)
      && Truthy(t.value.id) && t.value.id !in st.seenTxIds)
    ensures r.Some? ==> r == Logic.NormalizeTx(raw, env)
  {
    var t := Logic.NormalizeTx(raw, env);
    if t.None? || !Truthy(t.value.from) || !Truthy(t.value.to) || t.value.to != Str(appPubkey) then None
    else if !Truthy(t.value.id) || t.value.id in st.seenTxIds then None
    else t
  }

  /** `leaderboard.sort((a, b) => b.score - a.score)` followed by `rank = idx + 1`. */
  function SortRank(s: seq<Entry>): (r: seq<Entry>)
    ensures |r| == |s|
  {
    var sorted := Ranking.SortDesc(s, EntryKey);
    seq(|sorted|, i requires 0 <= i < |sorted| => sorted[i].(rank := i + 1))
  }

  /** `x` is `y` with some rank. */
  ghost predicate Reranked(x: Entry, y: Entry)
  {
    x == y.(rank := x.rank)
  }

  /** Ranks are the positions, counted from 1. */
  ghost predicate Ranked(s: seq<Entry>)
  {
    forall i :: 0 <= i < |s| ==> s[i].rank == i + 1
  }

  /** Drop the sender's row, add the new one, sort and rank again. */
  function Replace(s: seq<Entry>, e: Entry): (r: seq<Entry>)
    ensures |r| <= |s| + 1
  {
    var kept := RemoveFirst(s, e.from, EntryFrom);
    assert |kept| <= |s| by {
      RemoveFirstShorter(s, e.from);
    }
    SortRank(kept + [e])
  }

  lemma {:induction false} RemoveFirstShorter(s: seq<Entry>, a: Json)
    ensures |RemoveFirst(s, a, EntryFrom)| <= |s|
    decreases |s|
  {
    if s != [] && s[0].from != a {
      RemoveFirstShorter(s[1..], a);
    }
  }

  /** `leaderboard.find(e => e.from === from)`, renamed. */
  function RenameFirst(s: seq<Entry>, from: Json, name: Json): (r: seq<Entry>)
    ensures |r| == |s|
    decreases |s|
  {
    if s == [] then []
    else if s[0].from == from then [s[0].(username := name)] + s[1..]
    else [s[0]] + RenameFirst(s[1..], from, name)
  }

  /** The entry a `submit_score` memo builds, with the missing fields defaulted. */
  function NewEntry(usernames: map<string, Json>, tx: Logic.ArenaTx, memo: Json): Entry
  {
    var key := ToStr(tx.from);
    Entry(tx.from, if key in usernames then Or(usernames[key], Null) else Null,
      Or(Get(memo, "score"), Num(Int(0))), Or(Get(memo, "level"), Num(Int(1))), Or(Get(memo, "lines"), Num(Int(0))),
      tx.ts, tx.id, 0)
  }

  /** The `submit_score` branch: counted always, stored only when new or strictly higher. */
  function SubmitScore(st: Server, tx: Logic.ArenaTx, memo: Json): (r: Server)
    ensures r.seenTxIds == st.seenTxIds && r.txsByPlayer == st.txsByPlayer && r.usernames == st.usernames
    ensures r.scoreCount == st.scoreCount + 1 && r.usernameCount == st.usernameCount
  {
    var key := ToStr(tx.from);
    var entry := NewEntry(st.usernames, tx, memo);
    var st1 := st.(scoreCount := st.scoreCount + 1);
    if BeatsBest(st.scoresByPlayer, key, entry) then
      st1.(scoresByPlayer := st.scoresByPlayer[key := entry], leaderboard := Replace(st.leaderboard, entry))
    else st1
  }

  /** The `set_username` branch. */
  function SetUsername(st: Server, tx: Logic.ArenaTx, memo: Json): (r: Server)
    ensures r.seenTxIds == st.seenTxIds && r.txsByPlayer == st.txsByPlayer && r.scoresByPlayer == st.scoresByPlayer
    ensures r.scoreCount == st.scoreCount && r.usernameCount == st.usernameCount + 1
  {
    var name := Get(memo, "username");
    st.(usernameCount := st.usernameCount + 1,
        usernames := st.usernames[ToStr(tx.from) := name],
        leaderboard := RenameFirst(st.leaderboard, tx.from, name))
  }

  /** The memo when it parses to a truthy value whose `app` is `tetris_arena`. */
  function AppMemo(tx: Logic.ArenaTx, env: CisText.Env): (r: Option<Json>)
    ensures r.Some? <==> (
      var m := CisText.ParseMemo(tx.memo, env);
      m.Some? && Truthy(m.value) && Get(m.value, "app") == Str(APP_NAME))
    ensures r.Some? ==> r == CisText.ParseMemo(tx.memo, env)
  {
    var m := CisText.ParseMemo(tx.memo, env);
    if m.None? || !Truthy(m.value) || Get(m.value, "app") != Str(APP_NAME) then None else m
  }

  /** `txsByPlayer[from].push(tx)`, creating the list on first use. */
  function Log(st: Server, tx: Logic.ArenaTx): (r: Server)
    ensures r.txsByPlayer.Keys == st.txsByPlayer.Keys + {ToStr(tx.from)}
    ensures r.txsByPlayer[ToStr(tx.from)] ==
      (if ToStr(tx.from) in st.txsByPlayer then st.txsByPlayer[ToStr(tx.from)] else []) + [tx]
    ensures forall k :: k in st.txsByPlayer && k != ToStr(tx.from) ==> r.txsByPlayer[k] == st.txsByPlayer[k]
    ensures r == st.(txsByPlayer := r.txsByPlayer)
  {
    var key := ToStr(tx.from);
    st.(txsByPlayer := st.txsByPlayer[key := (if key in st.txsByPlayer then st.txsByPlayer[key] else []) + [tx]])
  }

  /** The memo types; any other type is only logged. */
  function Dispatch(st: Server, tx: Logic.ArenaTx, memo: Json): (r: Server)
    ensures r.seenTxIds == st.seenTxIds && r.txsByPlayer == st.txsByPlayer
  {
    var kind := Get(memo, "type");
    if kind == Str("submit_score") then SubmitScore(st, tx, memo)
    else if kind == Str("set_username") then SetUsername(st, tx, memo)
    else st
  }

  /** After the id is recorded: the memo check, the per-player log, and the memo types. */
  function Route(st: Server, tx: Logic.ArenaTx, env: CisText.Env): (r: Server)
    ensures r.seenTxIds == st.seenTxIds
  {
    var memo := AppMemo(tx, env);
    if memo.None? then st else Dispatch(Log(st, tx), tx, memo.value)
  }

  /** `processTransaction` */
  function Step(st: Server, raw: Json, appPubkey: string, env: CisText.Env): Server
  {
    var t := Admit(st, raw, appPubkey, env);
    if t.None? then st else Route(st.(seenTxIds := st.seenTxIds + {t.value.id}), t.value, env)
  }

  /** A transaction not sent to the app, without an id, or already seen changes nothing. */
  lemma IgnoredTransactions(st: Server, raw: Json, appPubkey: string, env: CisText.Env)
    requires var t := Logic.NormalizeTx(raw, env);
      t.None? || !Truthy(t.value.from) || t.value.to != Str(appPubkey) || !Truthy(t.value.id)
      || t.value.id in st.seenTxIds
    ensures Step(st, raw, appPubkey, env) == st
  {
  }

  /**
   * An admitted transaction's id is seen afterwards, whatever its memo; so
   * the same transaction delivered again changes nothing.
   */
  lemma AdmittedOnce(st: Server, raw: Json, appPubkey: string, env: CisText.Env)
    requires Admit(st, raw, appPubkey, env).Some?
    ensures Step(st, raw, appPubkey, env).seenTxIds == st.seenTxIds + {Logic.NormalizeTx(raw, env).value.id}
    ensures var st' := Step(st, raw, appPubkey, env);
      Step(st', raw, appPubkey, env) == st'
  {
    var st' := Step(st, raw, appPubkey, env);
    assert Admit(st', raw, appPubkey, env).None?;
  }

  /** A memo that does not parse, is falsy, or names another app is recorded as seen and nothing else. */
  lemma ForeignMemoOnlySeen(st: Server, raw: Json, appPubkey: string, env: CisText.Env)
    requires Admit(st, raw, appPubkey, env).Some?
    requires var m := CisText.ParseMemo(Admit(st, raw, appPubkey, env).value.memo, env);
      m.None? || !Truthy(m.value) || Get(m.value, "app") != Str(APP_NAME)
    ensures Step(st, raw, appPubkey, env) ==
      st.(seenTxIds := st.seenTxIds + {Logic.NormalizeTx(raw, env).value.id})
  {
  }

  /**
   * Every board row's sender has a recorded best, and a best recorded for
   * the row's own sender holds the row's score.
   */
  ghost predicate Covered(s: seq<Entry>, best: map<string, Entry>)
  {
    forall i :: 0 <= i < |s| ==> CoveredRow(s[i], best)
  }

  ghost predicate CoveredRow(row: Entry, best: map<string, Entry>)
  {
    ToStr(row.from) in best && (best[ToStr(row.from)].from == row.from ==> best[ToStr(row.from)].score == row.score)
  }

  /**
   * The board holds one row per sender, sorted by `Number(score)`, ranked
   * 1..n, and every row's sender has a recorded best.
   */
  ghost predicate Inv(st: Server)
  {
    && DistinctBy(st.leaderboard, EntryFrom)
    && Ranking.SortedBy(st.leaderboard, EntryKey)
    && Ranked(st.leaderboard)
    && Covered(st.leaderboard, st.scoresByPlayer)
  }

  lemma EmptyInv()
    ensures Inv(Empty)
  {
  }

  /** Sorting and ranking keeps the rows, sorts them and numbers them. */
  lemma SortRankShape(s: seq<Entry>)
    ensures Ranking.SortedBy(SortRank(s), EntryKey)
    ensures Ranked(SortRank(s))
    ensures DistinctBy(s, EntryFrom) ==> DistinctBy(SortRank(s), EntryFrom)
    ensures forall i :: 0 <= i < |SortRank(s)| ==> exists j :: 0 <= j < |s| && Reranked(SortRank(s)[i], s[j])
  {
    var sorted := Ranking.SortDesc(s, EntryKey);
    var r := SortRank(s);
    assert Ranking.UniformKeys(s, EntryKey, 2);
    Ranking.SortDescSorted(s, EntryKey, 2);
    forall i | 0 <= i < |r|
      ensures EntryKey(r[i]) == EntryKey(sorted[i])
    {
      assert r[i] == sorted[i].(rank := i + 1);
    }
    Ranking.SortedBySameKeys(sorted, r, EntryKey);
    if DistinctBy(s, EntryFrom) {
      SortDistinct(s, EntryKey, EntryFrom);
      assert forall i :: 0 <= i < |r| ==> r[i].from == sorted[i].from;
    }
    forall i | 0 <= i < |r|
      ensures exists j :: 0 <= j < |s| && Reranked(r[i], s[j])
    {
      assert sorted[i] in multiset(s);
      var j :| 0 <= j < |s| && s[j] == sorted[i];
      assert Reranked(r[i], s[j]);
    }
  }

  /**
   * Replacing a sender's row keeps one row per sender, sorted and ranked;
   * every row is the new one or an old row of another sender.
   */
  lemma ReplaceShape(s: seq<Entry>, e: Entry)
    requires DistinctBy(s, EntryFrom)
    ensures DistinctBy(Replace(s, e), EntryFrom)
    ensures Ranking.SortedBy(Replace(s, e), EntryKey) && Ranked(Replace(s, e))
    ensures forall i :: 0 <= i < |Replace(s, e)| ==>
      (Reranked(Replace(s, e)[i], e) || (Replace(s, e)[i].from != e.from && Replace(s, e)[i] in Rerankings(s, i + 1)))
  {
    var kept := RemoveFirst(s, e.from, EntryFrom);
    RemoveFirstIsWithout(s, e.from, EntryFrom);
    WithoutDistinct(s, e.from, EntryFrom);
    var t := kept + [e];
    assert DistinctBy(t, EntryFrom);
    SortRankShape(t);
    var r := Replace(s, e);
    forall i | 0 <= i < |r|
      ensures Reranked(r[i], e) || (r[i].from != e.from && r[i] in Rerankings(s, i + 1))
    {
      var j :| 0 <= j < |t| && Reranked(r[i], t[j]);
      assert r[i].rank == i + 1;
      if j < |kept| {
        assert t[j] in s;
        var k :| 0 <= k < |s| && s[k] == t[j];
        assert r[i] == Rerankings(s, i + 1)[k];
      }
    }
  }

  /** The rows of `s`, all given rank `rank`. */
  function Rerankings(s: seq<Entry>, rank: int): (r: seq<Entry>)
    ensures |r| == |s| && forall k :: 0 <= k < |s| ==> r[k] == s[k].(rank := rank)
  {
    seq(|s|, k requires 0 <= k < |s| => s[k].(rank := rank))
  }

  /** Renaming touches only the username of the sender's row. */
  lemma {:induction false} RenameFirstSpec(s: seq<Entry>, from: Json, name: Json)
    requires DistinctBy(s, EntryFrom)
    ensures forall i :: 0 <= i < |s| ==>
      RenameFirst(s, from, name)[i] == if s[i].from == from then s[i].(username := name) else s[i]
    decreases |s|
  {
    if s != [] && s[0].from != from {
      assert DistinctBy(s[1..], EntryFrom);
      RenameFirstSpec(s[1..], from, name);
      assert forall i :: 0 < i < |s| ==> RenameFirst(s, from, name)[i] == RenameFirst(s[1..], from, name)[i - 1];
    } else if s != [] {
      assert forall i :: 0 < i < |s| ==> s[i].from != from;
    }
  }

  lemma SubmitScoreKeepsInv(st: Server, tx: Logic.ArenaTx, memo: Json)
    requires Inv(st)
    ensures Inv(SubmitScore(st, tx, memo))
  {
    var key := ToStr(tx.from);
    var entry := NewEntry(st.usernames, tx, memo);
    var r := SubmitScore(st, tx, memo);
    if BeatsBest(st.scoresByPlayer, key, entry) {
      assert r.leaderboard == Replace(st.leaderboard, entry) && r.scoresByPlayer == st.scoresByPlayer[key := entry];
      ReplaceShape(st.leaderboard, entry);
      CoveredAfterReplace(st.leaderboard, st.scoresByPlayer, entry, key);
    } else {
      assert r.leaderboard == st.leaderboard && r.scoresByPlayer == st.scoresByPlayer;
    }
  }

  /** Storing a sender's new best together with its new row keeps every board row covered. */
  lemma CoveredAfterReplace(s: seq<Entry>, best: map<string, Entry>, entry: Entry, key: string)
    requires DistinctBy(s, EntryFrom) && Covered(s, best) && key == ToStr(entry.from)
    ensures Covered(Replace(s, entry), best[key := entry])
  {
    ReplaceShape(s, entry);
    forall i | 0 <= i < |Replace(s, entry)|
      ensures CoveredRow(Replace(s, entry)[i], best[key := entry])
    {
      CoveredReplacedRow(s, best, entry, key, Replace(s, entry)[i], i + 1);
    }
  }

  lemma CoveredReplacedRow(s: seq<Entry>, best: map<string, Entry>, entry: Entry, key: string, row: Entry, rank: int)
    requires Covered(s, best) && key == ToStr(entry.from)
    requires Reranked(row, entry) || (row.from != entry.from && row in Rerankings(s, rank))
    ensures CoveredRow(row, best[key := entry])
  {
    if !Reranked(row, entry) {
      var k :| 0 <= k < |s| && Rerankings(s, rank)[k] == row;
      assert row == s[k].(rank := rank);
      assert CoveredRow(s[k], best);
    }
  }

  lemma SetUsernameKeepsInv(st: Server, tx: Logic.ArenaTx, memo: Json)
    requires Inv(st)
    ensures Inv(SetUsername(st, tx, memo))
  {
    var r := SetUsername(st, tx, memo);
    RenameFirstSpec(st.leaderboard, tx.from, Get(memo, "username"));
    assert forall i :: 0 <= i < |r.leaderboard| ==> Reranked(r.leaderboard[i].(username := st.leaderboard[i].username), st.leaderboard[i]);
    Ranking.SortedBySameKeys(st.leaderboard, r.leaderboard, EntryKey);
  }

  lemma DispatchKeepsInv(st: Server, tx: Logic.ArenaTx, memo: Json)
    requires Inv(st)
    ensures Inv(Dispatch(st, tx, memo))
  {
    var kind := Get(memo, "type");
    if kind == Str("submit_score") {
      SubmitScoreKeepsInv(st, tx, memo);
    } else if kind == Str("set_username") {
      SetUsernameKeepsInv(st, tx, memo);
    }
  }

  /** Every transaction keeps the board invariant. */
  lemma StepKeepsInv(st: Server, raw: Json, appPubkey: string, env: CisText.Env)
    requires Inv(st)
    ensures Inv(Step(st, raw, appPubkey, env))
  {
    var t := Admit(st, raw, appPubkey, env);
    if t.Some? {
      var st1 := st.(seenTxIds := st.seenTxIds + {t.value.id});
      var memo := AppMemo(t.value, env);
      if memo.Some? {
        DispatchKeepsInv(Log(st1, t.value), t.value, memo.value);
      }
    }
  }

  lemma SubmitNeverDrops(st: Server, tx: Logic.ArenaTx, memo: Json, x: Entry, y: Entry)
    requires Inv(st)
    requires x in st.leaderboard && y in SubmitScore(st, tx, memo).leaderboard && x.from == y.from
    ensures ToStr(x.from) in st.scoresByPlayer
    ensures y.score == x.score || JsGreater(y.score, st.scoresByPlayer[ToStr(x.from)].score)
    ensures st.scoresByPlayer[ToStr(x.from)].from == x.from ==> y.score == x.score || JsGreater(y.score, x.score)
  {
    var key := ToStr(tx.from);
    var entry := NewEntry(st.usernames, tx, memo);
    var r := SubmitScore(st, tx, memo);
    var k :| 0 <= k < |st.leaderboard| && st.leaderboard[k] == x;
    assert CoveredRow(st.leaderboard[k], st.scoresByPlayer);
    if BeatsBest(st.scoresByPlayer, key, entry) {
      assert r.leaderboard == Replace(st.leaderboard, entry);
      ReplaceShape(st.leaderboard, entry);
      var i :| 0 <= i < |r.leaderboard| && r.leaderboard[i] == y;
      if !Reranked(y, entry) {
        var m :| 0 <= m < |st.leaderboard| && Rerankings(st.leaderboard, i + 1)[m] == y;
        assert st.leaderboard[m].from == x.from;
        SameAddressSameRow(st.leaderboard, EntryFrom, x, st.leaderboard[m]);
      }
    } else {
      SameAddressSameRow(st.leaderboard, EntryFrom, x, y);
    }
  }

  lemma DispatchNeverDrops(st: Server, tx: Logic.ArenaTx, memo: Json, x: Entry, y: Entry)
    requires Inv(st)
    requires x in st.leaderboard && y in Dispatch(st, tx, memo).leaderboard && x.from == y.from
    ensures ToStr(x.from) in st.scoresByPlayer
    ensures y.score == x.score || JsGreater(y.score, st.scoresByPlayer[ToStr(x.from)].score)
    ensures st.scoresByPlayer[ToStr(x.from)].from == x.from ==> y.score == x.score || JsGreater(y.score, x.score)
  {
    var k0 :| 0 <= k0 < |st.leaderboard| && st.leaderboard[k0] == x;
    assert CoveredRow(st.leaderboard[k0], st.scoresByPlayer);
    var kind := Get(memo, "type");
    if kind == Str("submit_score") {
      SubmitNeverDrops(st, tx, memo, x, y);
    } else if kind == Str("set_username") {
      var r := SetUsername(st, tx, memo);
      RenameFirstSpec(st.leaderboard, tx.from, Get(memo, "username"));
      var k :| 0 <= k < |r.leaderboard| && r.leaderboard[k] == y;
      SameAddressSameRow(st.leaderboard, EntryFrom, x, st.leaderboard[k]);
    } else {
      SameAddressSameRow(st.leaderboard, EntryFrom, x, y);
    }
  }

  /**
   * A player's row changes its score only to one that is `>` the best
   * recorded for the sender, which is the row's own score when the best
   * came from the same sender value.
   */
  lemma ScoreNeverDrops(st: Server, raw: Json, appPubkey: string, env: CisText.Env, x: Entry, y: Entry)
    requires Inv(st)
    requires x in st.leaderboard && y in Step(st, raw, appPubkey, env).leaderboard && x.from == y.from
    ensures ToStr(x.from) in st.scoresByPlayer
    ensures y.score == x.score || JsGreater(y.score, st.scoresByPlayer[ToStr(x.from)].score)
    ensures st.scoresByPlayer[ToStr(x.from)].from == x.from ==> y.score == x.score || JsGreater(y.score, x.score)
  {
    var t := Admit(st, raw, appPubkey, env);
    if t.Some? {
      var st1 := st.(seenTxIds := st.seenTxIds + {t.value.id});
      var memo := AppMemo(t.value, env);
      if memo.Some? {
        DispatchNeverDrops(Log(st1, t.value), t.value, memo.value, x, y);
        return;
      }
    }
    SameAddressSameRow(st.leaderboard, EntryFrom, x, y);
  }

  /** A first score, or one `>` the sender's best, puts exactly that entry on the board. */
  lemma HigherScoreListed(st: Server, tx: Logic.ArenaTx, memo: Json)
    requires BeatsBest(st.scoresByPlayer, ToStr(tx.from), NewEntry(st.usernames, tx, memo))
    ensures var r := SubmitScore(st, tx, memo);
      && r.scoresByPlayer == st.scoresByPlayer[ToStr(tx.from) := NewEntry(st.usernames, tx, memo)]
      && exists i :: 0 <= i < |r.leaderboard| && r.leaderboard[i] == NewEntry(st.usernames, tx, memo).(rank := i + 1)
  {
    var entry := NewEntry(st.usernames, tx, memo);
    var kept := RemoveFirst(st.leaderboard, entry.from, EntryFrom);
    var t := kept + [entry];
    assert SubmitScore(st, tx, memo).leaderboard == SortRank(t);
    var i := SortedPosition(t, entry);
    assert SortRank(t)[i] == entry.(rank := i + 1);
  }

  /** A score sent as text beats a numeric best it exceeds as a number: 3000, then "5000", replaces the row. */
  lemma TextScoreBeatsNumber(best: map<string, Entry>, key: string, entry: Entry)
    requires key in best && best[key].score == Num(Int(3000)) && entry.score == Str("5000")
    ensures BeatsBest(best, key, entry)
  {
    TextAgainstNumber();
  }

  /** Down the board no row's `Number(score)` is greater than that of a row above it (NaN aside). */
  lemma BoardByNumbers(st: Server)
    requires Inv(st)
    ensures forall i, j :: 0 <= i < j < |st.leaderboard| ==>
      var x, y := ToNumber(st.leaderboard[i].score), ToNumber(st.leaderboard[j].score);
      !x.NaN? && !y.NaN? ==> !NumberGreater(y, x)
  {
    forall i, j | 0 <= i < j < |st.leaderboard|
      ensures var x, y := ToNumber(st.leaderboard[i].score), ToNumber(st.leaderboard[j].score);
        !x.NaN? && !y.NaN? ==> !NumberGreater(y, x)
    {
      var x, y := ToNumber(st.leaderboard[i].score), ToNumber(st.leaderboard[j].score);
      assert !Ranking.Precedes(EntryKey(st.leaderboard[j]), EntryKey(st.leaderboard[i]));
      if !x.NaN? && !y.NaN? {
        Logic.NumberKeyOrder(y, x);
      }
    }
  }

  /** Where an entry of `t` lands in the sorted board. */
  lemma SortedPosition(t: seq<Entry>, e: Entry) returns (i: nat)
    requires e in t
    ensures i < |SortRank(t)| && SortRank(t)[i] == e.(rank := i + 1)
  {
    var sorted := Ranking.SortDesc(t, EntryKey);
    assert e in multiset(t);
    assert e in multiset(sorted);
    i :| 0 <= i < |sorted| && sorted[i] == e;
  }

  /** A score that is not `>` the sender's recorded best is counted and nothing else. */
  lemma LowerScoreIgnored(st: Server, tx: Logic.ArenaTx, memo: Json)
    requires !BeatsBest(st.scoresByPlayer, ToStr(tx.from), NewEntry(st.usernames, tx, memo))
    ensures SubmitScore(st, tx, memo) == st.(scoreCount := st.scoreCount + 1)
  {
  }

  /** `set_username` records the name and renames the sender's row, if it has one. */
  lemma SetUsernameRenames(st: Server, tx: Logic.ArenaTx, memo: Json)
    requires Inv(st)
    ensures var r := SetUsername(st, tx, memo);
      && r.usernames[ToStr(tx.from)] == Get(memo, "username")
      && |r.leaderboard| == |st.leaderboard|
      && forall i :: 0 <= i < |r.leaderboard| ==>
           r.leaderboard[i] == if st.leaderboard[i].from == tx.from
             then st.leaderboard[i].(username := Get(memo, "username")) else st.leaderboard[i]
  {
    RenameFirstSpec(st.leaderboard, tx.from, Get(memo, "username"));
  }

  /** `displayName`: the stored name when truthy, else `player_` and the last six characters. */
  function DisplayName(usernames: map<string, Json>, pubkey: string): (r: Json)
    ensures pubkey in usernames && Truthy(usernames[pubkey]) ==> r == usernames[pubkey]
    ensures !(pubkey in usernames && Truthy(usernames[pubkey])) ==> r == Str("player_" + Last(pubkey, 6))
  {
    if pubkey in usernames && Truthy(usernames[pubkey]) then usernames[pubkey] else Str("player_" + Last(pubkey, 6))
  }

  /** A row as the endpoints show it: `e.username || \`player_${e.from.slice(-6)}\``. */
  function Shown(e: Entry): (r: Entry)
    ensures r.from == e.from && r.score == e.score && r.rank == e.rank && Truthy(r.username)
  {
    e.(username := Or(e.username, Str("player_" + Last(ToStr(e.from), 6))))
  }

  function ShowAll(s: seq<Entry>): (r: seq<Entry>)
    ensures |r| == |s| && forall i :: 0 <= i < |s| ==> r[i] == Shown(s[i])
  {
    seq(|s|, i requires 0 <= i < |s| => Shown(s[i]))
  }

  /** The `/__game/player-stats` reply. */
  datatype PlayerStats = PlayerStats(pubkey: string, username: Json, bestScore: Json, bestLevel: Json,
    bestLines: Json, rank: Json, transactionCount: nat)

  /** `/__game/player-stats`: None is the 400 reply for a missing or empty `pubkey`. */
  function StatsOf(st: Server, pubkey: Option<string>): (r: Option<PlayerStats>)
    ensures r.None? <==> (pubkey.None? || pubkey.value == [])
    ensures r.Some? ==> (r.value.transactionCount ==
      if pubkey.value in st.txsByPlayer then |st.txsByPlayer[pubkey.value]| else 0)
  {
    if pubkey.None? || pubkey.value == [] then None
    else
      var p := pubkey.value;
      var best := if p in st.scoresByPlayer then Some(st.scoresByPlayer[p]) else None;
      var row := FindBy(st.leaderboard, Str(p), EntryFrom);
      Some(PlayerStats(p,
        if p in st.usernames then st.usernames[p] else Undefined,
        if best.Some? then Or(best.value.score, Num(Int(0))) else Num(Int(0)),
        if best.Some? then Or(best.value.level, Num(Int(0))) else Num(Int(0)),
        if best.Some? then Or(best.value.lines, Num(Int(0))) else Num(Int(0)),
        if row.Some? then Or(Num(Int(row.value.rank)), Null) else Null,
        if p in st.txsByPlayer then |st.txsByPlayer[p]| else 0))
  }

  /** A player on the board is reported at their position; a player off it has no rank. */
  lemma StatsRank(st: Server, p: string)
    requires Inv(st) && p != []
    ensures forall i :: 0 <= i < |st.leaderboard| && st.leaderboard[i].from == Str(p) ==>
      StatsOf(st, Some(p)).value.rank == Num(Int(i + 1))
    ensures (forall i :: 0 <= i < |st.leaderboard| ==> st.leaderboard[i].from != Str(p)) ==>
      StatsOf(st, Some(p)).value.rank == Null
  {
    var row := FindBy(st.leaderboard, Str(p), EntryFrom);
    forall i | 0 <= i < |st.leaderboard| && st.leaderboard[i].from == Str(p)
      ensures StatsOf(st, Some(p)).value.rank == Num(Int(i + 1))
    {
      SameAddressSameRow(st.leaderboard, EntryFrom, row.value, st.leaderboard[i]);
    }
  }

  /** The counters of `/__game/state`: scores, usernames, transactions seen, players on the board. */
  function Counters(st: Server): (r: (int, int, nat, nat))
    ensures r.2 == |st.seenTxIds| && r.3 == |st.leaderboard|
  {
    (st.scoreCount, st.usernameCount, |st.seenTxIds|, |st.leaderboard|)
  }

  /** The board in `/__game/state`: its first 200 rows. */
  function StateRows(board: seq<Entry>): (r: seq<Entry>)
    ensures |r| == if |board| < STATE_ROWS then |board| else STATE_ROWS
    ensures forall i :: 0 <= i < |r| ==> r[i] == Shown(board[i])
  {
    ShowAll(Take(board, STATE_ROWS))
  }

  /** `parseInt(q) || d`, with no radix given: NaN and 0 give the default. */
  function QueryInt(q: Option<string>, d: int): (r: int)
    ensures q.None? ==> r == d
    ensures q.Some? && ParseIntAnyRadix(q.value).Some? && ParseIntAnyRadix(q.value).value != 0 ==>
      r == ParseIntAnyRadix(q.value).value
    ensures q.Some? && (ParseIntAnyRadix(q.value).None? || ParseIntAnyRadix(q.value).value == 0) ==> r == d
  {
    var p := if q.None? then None else ParseIntAnyRadix(q.value);
    if p.None? || p.value == 0 then d else p.value
  }

  /** Without a radix `parseInt` reads `0x` text as hexadecimal: `?limit=0x20` asks for 32 rows. */
  lemma HexLimit()
    ensures LimitAsWritten(Some("0x20")) == 32
  {
    HexParseInt();
    assert QueryInt(Some("0x20"), DEFAULT_LIMIT) == 32;
  }

  /** `Math.min(parseInt(query.limit) || 100, 500)`, as written. */
  function LimitAsWritten(q: Option<string>): (r: int)
    ensures r <= MAX_LIMIT && r != 0
    ensures q.None? ==> r == DEFAULT_LIMIT
  {
    var l := QueryInt(q, DEFAULT_LIMIT);
    if l < MAX_LIMIT then l else MAX_LIMIT
  }

  /**
   * `leaderboard.slice(offset, offset + limit)`, shown: from an offset
   * inside the board, the `limit` rows starting there, as many as the
   * board has.
   */
  function PageAt(board: seq<Entry>, offset: int, limit: int): (r: seq<Entry>)
    ensures limit >= 0 ==> |r| <= limit
    ensures 0 <= offset <= |board| && limit >= 0 ==>
      && |r| == (if |board| - offset < limit then |board| - offset else limit)
      && forall i :: 0 <= i < |r| ==> r[i] == Shown(board[offset + i])
  {
    var slice := JsSlice(board, offset, offset + limit);
    assert 0 <= offset <= |board| && limit >= 0 ==>
      forall i :: 0 <= i < |slice| ==> slice[i] == board[offset + i];
    ShowAll(slice)
  }

  /** The page as written. */
  function PageAsWritten(board: seq<Entry>, limitQ: Option<string>, offsetQ: Option<string>): seq<Entry>
  {
    PageAt(board, QueryInt(offsetQ, 0), LimitAsWritten(limitQ))
  }

  /** A negative limit slips past the cap: `limit=-1` on a 600-row board returns 599 rows. */
  lemma NegativeLimitExceedsCap(board: seq<Entry>)
    requires |board| == 600
    ensures |PageAsWritten(board, Some(IntToString(-1)), None)| == 599
  {
    ParseNegText(-1);
    assert LimitAsWritten(Some(IntToString(-1))) == -1;
  }

  /** The limit as evidently intended: the default for none or 0, and then within 1..500. */
  function Limit(q: Option<string>): (r: int)
    ensures 1 <= r <= MAX_LIMIT
    ensures q.None? ==> r == DEFAULT_LIMIT
    ensures 1 <= QueryInt(q, DEFAULT_LIMIT) <= MAX_LIMIT ==> r == QueryInt(q, DEFAULT_LIMIT)
  {
    var l := LimitAsWritten(q);
    if l < 1 then 1 else l
  }

  /** A page of the board, with the corrected limit: the page as written whenever its limit is positive. */
  function Page(board: seq<Entry>, limitQ: Option<string>, offsetQ: Option<string>): (r: seq<Entry>)
    ensures LimitAsWritten(limitQ) >= 1 ==> r == PageAsWritten(board, limitQ, offsetQ)
  {
    PageAt(board, QueryInt(offsetQ, 0), Limit(limitQ))
  }

  /** With the corrected limit no page holds more than 500 rows, whatever the query. */
  lemma PageBounded(board: seq<Entry>, limitQ: Option<string>, offsetQ: Option<string>)
    ensures |Page(board, limitQ, offsetQ)| <= MAX_LIMIT
  {
  }

  /** The server's state. */
  class ArenaServer {
    const appPubkey: string
    var seenTxIds: set<Json>
    var leaderboard: seq<Entry>
    var usernames: map<string, Json>
    var scoresByPlayer: map<string, Entry>
    var txsByPlayer: map<string, seq<Logic.ArenaTx>>
    var scoreCount: int
    var usernameCount: int

    function Snapshot(): Server
      reads this
    {
      Server(seenTxIds, leaderboard, usernames, scoresByPlayer, txsByPlayer, scoreCount, usernameCount)
    }

    constructor (configuredPubkey: string)
      ensures appPubkey == AppPubkey(configuredPubkey) && Snapshot() == Empty
    {
      appPubkey := AppPubkey(configuredPubkey);
      seenTxIds, leaderboard, usernames, scoresByPlayer, txsByPlayer := {}, [], map[], map[], map[];
      scoreCount, usernameCount := 0, 0;
    }

    method ProcessTransaction(raw: Json, env: CisText.Env)
      modifies this
      ensures Snapshot() == Step(old(Snapshot()), raw, appPubkey, env)
    {
      var tx := Logic.NormalizeTx(raw, env);
      if tx.None? || !Truthy(tx.value.from) || !Truthy(tx.value.to) || tx.value.to != Str(appPubkey) {
        return;
      }
      var txId := tx.value.id;
      if !Truthy(txId) || txId in seenTxIds {
        return;
      }
      seenTxIds := seenTxIds + {txId};
      RouteTransaction(tx.value, env);
    }

    method RouteTransaction(tx: Logic.ArenaTx, env: CisText.Env)
      modifies this
      ensures Snapshot() == Route(old(Snapshot()), tx, env)
    {
      var memo := CisText.ParseMemo(tx.memo, env);
      if memo.None? || !Truthy(memo.value) || Get(memo.value, "app") != Str(APP_NAME) {
        assert AppMemo(tx, env).None?;
        return;
      }
      assert AppMemo(tx, env) == memo;
      LogTransaction(tx);
      DispatchMemo(tx, memo.value);
    }

    /** Append the transaction to its sender's log. */
    method LogTransaction(tx: Logic.ArenaTx)
      modifies this`txsByPlayer
      ensures Snapshot() == Log(old(Snapshot()), tx)
    {
      var key := ToStr(tx.from);
      if key !in txsByPlayer {
        txsByPlayer := txsByPlayer[key := []];
      }
      txsByPlayer := txsByPlayer[key := txsByPlayer[key] + [tx]];
    }

    method DispatchMemo(tx: Logic.ArenaTx, memo: Json)
      modifies this
      ensures Snapshot() == Dispatch(old(Snapshot()), tx, memo)
    {
      if Get(memo, "type") == Str("submit_score") {
        ProcessSubmit(tx, memo);
      } else if Get(memo, "type") == Str("set_username") {
        ProcessSetUsername(tx, memo);
      }
    }

    method ProcessSubmit(tx: Logic.ArenaTx, memo: Json)
      modifies this
      ensures Snapshot() == SubmitScore(old(Snapshot()), tx, memo)
    {
      scoreCount := scoreCount + 1;
      var key := ToStr(tx.from);
      var entry := NewEntry(usernames, tx, memo);
      if BeatsBest(scoresByPlayer, key, entry) {
        StoreBest(key, entry);
      }
    }

    /** Record the sender's new best and put it on the board in place of the old row. */
    method StoreBest(key: string, entry: Entry)
      modifies this
      ensures Snapshot() == old(Snapshot()).(scoresByPlayer := old(scoresByPlayer)[key := entry],
        leaderboard := Replace(old(leaderboard), entry))
    {
      scoresByPlayer := scoresByPlayer[key := entry];
      leaderboard := RemoveFirst(leaderboard, entry.from, EntryFrom);
      leaderboard := leaderboard + [entry];
      SortLeaderboard();
    }

    method ProcessSetUsername(tx: Logic.ArenaTx, memo: Json)
      modifies this
      ensures Snapshot() == SetUsername(old(Snapshot()), tx, memo)
    {
      usernameCount := usernameCount + 1;
      var name := Get(memo, "username");
      usernames := usernames[ToStr(tx.from) := name];
      leaderboard := RenameFirst(leaderboard, tx.from, name);
    }

    /** `sortLeaderboard` */
    method SortLeaderboard()
      modifies this`leaderboard
      ensures leaderboard == SortRank(old(leaderboard))
    {
      var sorted := Ranking.SortDesc(leaderboard, EntryKey);
      var ranked := sorted;
      var idx := 0;
      while idx < |ranked|
        invariant 0 <= idx <= |ranked| == |sorted|
        invariant forall k :: 0 <= k < idx ==> ranked[k] == sorted[k].(rank := k + 1)
        invariant forall k :: idx <= k < |ranked| ==> ranked[k] == sorted[k]
      {
        ranked := ranked[idx := ranked[idx].(rank := idx + 1)];
        idx := idx + 1;
      }
      leaderboard := ranked;
    }

    function DisplayNameOf(pubkey: string): Json
      reads this
    {
      DisplayName(usernames, pubkey)
    }

    function PlayerStatsOf(pubkey: Option<string>): Option<PlayerStats>
      reads this
    {
      StatsOf(Snapshot(), pubkey)
    }

    /** `/__game/leaderboard`: the page, the board's size, and the offset and limit used. */
    function LeaderboardPage(limitQ: Option<string>, offsetQ: Option<string>): (r: (seq<Entry>, int, int, int))
      reads this
      ensures r.1 == |leaderboard| && r.2 == QueryInt(offsetQ, 0)
      ensures r.3 == LimitAsWritten(limitQ) && r.3 <= MAX_LIMIT
      ensures r.0 == PageAt(leaderboard, r.2, r.3)
    {
      var offset := QueryInt(offsetQ, 0);
      var limit := LimitAsWritten(limitQ);
      (PageAt(leaderboard, offset, limit), |leaderboard|, offset, limit)
    }
  }
}
