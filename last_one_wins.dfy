/**
 * "Last One Wins": every entry adds its amount to the pot and restarts the
 * round timer; when the timer runs out the last sender is paid the pot and
 * the payout transaction, seen again in the replay, starts the next round.
 * The game state is rebuilt by replaying transactions, each at most once.
 */
module LastOneWins {
  import opened Options
  import opened JsValues
  import opened CisText
  import opened OrderedMaps

  const APP_ID: string := "lastwin"
  const DEFAULT_APP_PUBKEY: string := "ut1_lastwin_default_pubkey"
  const DEFAULT_TIMER_DURATION_MS: int := 86_400_000
  const MOCK_TIMER_DURATION_MS: int := 120_000
  const ENTRIES_SHOWN: nat := 50
  const ROUNDS_SHOWN: nat := 20

  /** A transaction after `normalizeTx`: `id`, `from` and `to` are the first truthy alias or null. */
  datatype GameTx = GameTx(id: Json, from: Json, to: Json, amount: Number, memo: Option<string>, ts: int)

  datatype Entry = Entry(from: Json, amount: int, ts: int, txId: Json)
  datatype PastRound = PastRound(round: int, winner: Json, amount: int, payoutTs: int, payoutTxId: Json)
  datatype NameTs = NameTs(name: string, ts: int)

  /** Everything `processTransaction` reads and writes. */
  datatype State = State(
    roundNumber: int,
    potBalance: int,
    lastSender: Option<Json>,
    lastEntryTs: Option<int>,
    entries: seq<Entry>,
    pastRounds: seq<PastRound>,
    usernames: Entries<Json, NameTs>,
    seen: set<Json>)

  const Initial: State := State(1, 0, None, None, [], [], [], {})

  // ------------------------------------------------------------------ normalisation

  /** `extractTimestamp`: this file checks `timestamp_ms` first. */
  function ExtractTimestamp(raw: Json, parseDate: string -> Option<int>): Option<int>
  {
    TimestampOf([Get(raw, "timestamp_ms"), Get(raw, "created_at"), Get(raw, "createdAt"),
      Get(raw, "timestamp"), Get(raw, "time")], parseDate)
  }

  function NormalizeTx(raw: Json, env: Env): (r: Option<GameTx>)
    ensures r.Some? <==> IsObjectLike(raw)
    ensures r.Some? && env.nowMs != 0 ==> r.value.ts != 0
  {
    if !IsObjectLike(raw) then None
    else
      var t := ExtractTimestamp(raw, env.parseDate);
      Some(GameTx(
        FirstTruthy(raw, ["tx_id", "id", "txid", "hash"]),
        FirstTruthy(raw, ["from_pubkey", "from", "source"]),
        FirstTruthy(raw, ["destination_pubkey", "to", "destination"]),
        if Present(Get(raw, "amount")) then ToNumber(Get(raw, "amount")) else Int(0),
        StringOrNull(Get(raw, "memo")),
        if t.Some? && t.value != 0 then t.value else env.nowMs))
  }

  /** The first guard of `processTransaction`: a normalised tx with an id, a sender and a recipient. */
  function Gate(raw: Json, env: Env): (r: Option<GameTx>)
    ensures r.Some? ==> Truthy(r.value.id) && Truthy(r.value.from) && Truthy(r.value.to)
    ensures r.Some? <==> (NormalizeTx(raw, env).Some? && Truthy(NormalizeTx(raw, env).value.id)
      && Truthy(NormalizeTx(raw, env).value.from) && Truthy(NormalizeTx(raw, env).value.to))
  {
    var t := NormalizeTx(raw, env);
    if t.None? || !Truthy(t.value.id) || !Truthy(t.value.from) || !Truthy(t.value.to) then None
    else t
  }

  /** `x || 0` on a number: NaN and 0 give 0; infinities are not represented as amounts. */
  function AmountOf(n: Number): int
  {
    if n.Int? then n.v else 0
  }

  // ------------------------------------------------------------------ memo dispatch

  /** What a fresh transaction asks for, once the app and memo checks are done. */
  datatype Action =
    | Ignore
    | SetName(from: Json, name: string, ts: int)
    | AddEntry(entry: Entry)
    | Payout(memoRound: Option<int>, winner: Json, amount: int, ts: int, txId: Json)

  /** `memo.round`: a truthy integer, or None when `|| state.roundNumber` takes over. */
  function MemoRound(memo: Json): Option<int>
  {
    var r := Get(memo, "round");
    if Truthy(r) && r.Num? && r.n.Int? then Some(r.n.v) else None
  }

  function Classify(tx: GameTx, app: string, env: Env): (a: Action)
    ensures a != Ignore ==> tx.to == Str(app) || tx.from == Str(app)
    ensures a.SetName? ==> tx.to == Str(app) && a.from == tx.from && a.name != [] && a.ts == tx.ts
    ensures a.AddEntry? ==> (tx.to == Str(app) && a.entry == Entry(tx.from, a.entry.amount, tx.ts, tx.id)
      && a.entry.amount > 0 && a.entry.amount == AmountOf(tx.amount))
    ensures a.Payout? ==> tx.from == Str(app) && a.ts == tx.ts && a.txId == tx.id
  {
    if tx.to != Str(app) && tx.from != Str(app) then Ignore
    else
      var m := ParseMemo(tx.memo, env);
      if m.None? || !Truthy(m.value) || Get(m.value, "app") != Str(APP_ID) then Ignore
      else
        var memo := m.value;
        var kind := Get(memo, "type");
        if kind == Str("set_username") && tx.to == Str(app) then
          var name := Trim(ToStr(Or(Get(memo, "username"), Str(""))));
          if name == [] then Ignore else SetName(tx.from, name, tx.ts)
        else if kind == Str("entry") && tx.to == Str(app) then
          var amount := AmountOf(tx.amount);
          if amount <= 0 then Ignore else AddEntry(Entry(tx.from, amount, tx.ts, tx.id))
        else if kind == Str("payout") && tx.from == Str(app) then
          Payout(MemoRound(memo), Or(Get(memo, "winner"), tx.to), AmountOf(tx.amount), tx.ts, tx.id)
        else Ignore
  }

  // ------------------------------------------------------------------ the state machine

  /** A name is stored when the sender has none yet or the new one is at least as recent. */
  function RecordName(names: Entries<Json, NameTs>, from: Json, name: string, ts: int): Entries<Json, NameTs>
  {
    var prev := Find(names, from);
    if prev.None? || ts >= prev.value.ts then Put(names, from, NameTs(name, ts)) else names
  }

  function Apply(s: State, a: Action): State
  {
    match a
    case Ignore => s
    case SetName(from, name, ts) => s.(usernames := RecordName(s.usernames, from, name, ts))
    case AddEntry(e) =>
      s.(potBalance := s.potBalance + e.amount, lastSender := Some(e.from), lastEntryTs := Some(e.ts),
        entries := s.entries + [e])
    case Payout(memoRound, winner, amount, ts, txId) =>
      var round := if memoRound.Some? then memoRound.value else s.roundNumber;
      var s1 := s.(pastRounds := s.pastRounds + [PastRound(round, winner, amount, ts, txId)]);
      if round >= s.roundNumber then
        s1.(roundNumber := round + 1, potBalance := 0, lastSender := None, lastEntryTs := None, entries := [])
      else s1
  }

  /** `processTransaction` on a state value. */
  function Process(s: State, raw: Json, app: string, env: Env): State
  {
    var t := Gate(raw, env);
    if t.None? || t.value.id in s.seen then s
    else Apply(s.(seen := s.seen + {t.value.id}), Classify(t.value, app, env))
  }

  function ProcessAll(s: State, txs: seq<Json>, app: string, env: Env): State
    decreases |txs|
  {
    if txs == [] then s else ProcessAll(Process(s, txs[0], app, env), txs[1..], app, env)
  }

  // ------------------------------------------------------------------ invariant

  function Sum(es: seq<Entry>): int
    decreases |es|
  {
    if es == [] then 0 else Sum(es[..|es| - 1]) + es[|es| - 1].amount
  }

  /**
   * The pot is the sum of this round's entries, every entry is positive, the
   * last sender and time are those of the newest entry, each entry comes from
   * a distinct transaction already marked seen, and names are keyed uniquely.
   */
  ghost predicate Inv(s: State)
  {
    && s.roundNumber >= 1
    && s.potBalance == Sum(s.entries)
    && (forall i :: 0 <= i < |s.entries| ==> s.entries[i].amount > 0 && s.entries[i].txId in s.seen)
    && (forall i, j :: 0 <= i < j < |s.entries| ==> s.entries[i].txId != s.entries[j].txId)
    && (s.entries == [] ==> s.lastSender.None? && s.lastEntryTs.None?)
    && (s.entries != [] ==> (s.lastSender == Some(s.entries[|s.entries| - 1].from)
         && s.lastEntryTs == Some(s.entries[|s.entries| - 1].ts)))
    && KeysDistinct(s.usernames)
  }

  lemma InitialInv()
    ensures Inv(Initial)
  {
  }

  /** An action keeps the invariant when a new entry is positive and comes from a fresh, seen id. */
  lemma ApplyKeepsInv(s: State, a: Action)
    requires Inv(s)
    requires a.AddEntry? ==> (a.entry.amount > 0 && a.entry.txId in s.seen
      && forall i :: 0 <= i < |s.entries| ==> s.entries[i].txId != a.entry.txId)
    ensures Inv(Apply(s, a))
  {
    match a
    case Ignore =>
    case SetName(from, name, ts) =>
      PutFind(s.usernames, from, NameTs(name, ts), from);
    case AddEntry(e) =>
      var es := s.entries + [e];
      assert es[..|es| - 1] == s.entries;
    case Payout(_, _, _, _, _) =>
  }

  /** Every transaction keeps the invariant. */
  lemma ProcessKeepsInv(s: State, raw: Json, app: string, env: Env)
    requires Inv(s)
    ensures Inv(Process(s, raw, app, env))
  {
    var t := Gate(raw, env);
    if t.Some? && t.value.id !in s.seen {
      var id := t.value.id;
      var s1 := s.(seen := s.seen + {id});
      assert Inv(s1);
      var a := Classify(t.value, app, env);
      assert a.AddEntry? ==> a.entry.txId == id;
      ApplyKeepsInv(s1, a);
    }
  }

  lemma {:induction false} ProcessAllKeepsInv(s: State, txs: seq<Json>, app: string, env: Env)
    requires Inv(s)
    ensures Inv(ProcessAll(s, txs, app, env))
    decreases |txs|
  {
    if txs != [] {
      ProcessKeepsInv(s, txs[0], app, env);
      ProcessAllKeepsInv(Process(s, txs[0], app, env), txs[1..], app, env);
    }
  }

  // ------------------------------------------------------------------ properties of one step

  /** A transaction id is acted on at most once: processing the same transaction again changes nothing. */
  lemma ProcessRepeat(s: State, raw: Json, app: string, env: Env)
    ensures Process(Process(s, raw, app, env), raw, app, env) == Process(s, raw, app, env)
  {
    var t := Gate(raw, env);
    var r := Process(s, raw, app, env);
    if t.Some? && t.value.id !in s.seen {
      var s1 := s.(seen := s.seen + {t.value.id});
      var a := Classify(t.value, app, env);
      assert r == Apply(s1, a);
      ApplyFrame(s1, a);
      assert t.value.id in r.seen;
    } else {
      assert r == s;
    }
    assert Process(r, raw, app, env) == r;
  }

  /** What an action leaves alone: the seen ids always, and the names unless it sets one. */
  lemma ApplyFrame(s: State, a: Action)
    ensures Apply(s, a).seen == s.seen
    ensures a.SetName? ==> Apply(s, a).usernames == RecordName(s.usernames, a.from, a.name, a.ts)
    ensures !a.SetName? ==> Apply(s, a).usernames == s.usernames
  {
  }

  /** A fresh transaction neither to nor from the app, or without this game's memo, is only marked seen. */
  lemma ForeignOnlyMarksSeen(s: State, raw: Json, app: string, env: Env)
    requires Gate(raw, env).Some? && Gate(raw, env).value.id !in s.seen
    requires var tx := Gate(raw, env).value;
      (tx.to != Str(app) && tx.from != Str(app))
      || ParseMemo(tx.memo, env).None?
      || Get(ParseMemo(tx.memo, env).value, "app") != Str(APP_ID)
    ensures Process(s, raw, app, env) == s.(seen := s.seen + {Gate(raw, env).value.id})
  {
  }

  /** A name change is stored unless the sender already has a strictly newer one; other senders keep theirs. */
  lemma NameLatestWins(names: Entries<Json, NameTs>, from: Json, name: string, ts: int, other: Json)
    requires KeysDistinct(names)
    ensures var r := RecordName(names, from, name, ts);
      && KeysDistinct(r)
      && (Find(names, from).None? || Find(names, from).value.ts <= ts ==> Find(r, from) == Some(NameTs(name, ts)))
      && (Find(names, from).Some? && Find(names, from).value.ts > ts ==> r == names)
      && (other != from ==> Find(r, other) == Find(names, other))
  {
    PutFind(names, from, NameTs(name, ts), other);
  }

  /** The stored time of a sender's name never goes back. */
  lemma {:induction false} NameTimeNeverDecreases(s: State, raw: Json, app: string, env: Env, who: Json)
    requires Inv(s)
    requires Find(s.usernames, who).Some?
    ensures var r := Process(s, raw, app, env).usernames;
      Find(r, who).Some? && Find(r, who).value.ts >= Find(s.usernames, who).value.ts
  {
    var t := Gate(raw, env);
    var r := Process(s, raw, app, env);
    if t.Some? && t.value.id !in s.seen {
      var s1 := s.(seen := s.seen + {t.value.id});
      var a := Classify(t.value, app, env);
      assert r == Apply(s1, a);
      ApplyFrame(s1, a);
      if a.SetName? {
        NameLatestWins(s.usernames, a.from, a.name, a.ts, who);
      }
    } else {
      assert r == s;
    }
  }

  /** A positive entry grows the pot by its amount and is appended exactly once. */
  lemma EntryStep(s: State, raw: Json, app: string, env: Env)
    requires Gate(raw, env).Some? && Gate(raw, env).value.id !in s.seen
    requires Classify(Gate(raw, env).value, app, env).AddEntry?
    ensures var tx := Gate(raw, env).value;
      var r := Process(s, raw, app, env);
      && r.potBalance == s.potBalance + AmountOf(tx.amount)
      && AmountOf(tx.amount) > 0
      && r.entries == s.entries + [Entry(tx.from, AmountOf(tx.amount), tx.ts, tx.id)]
      && r.lastSender == Some(tx.from) && r.lastEntryTs == Some(tx.ts)
      && r.roundNumber == s.roundNumber && r.pastRounds == s.pastRounds
  {
    var tx := Gate(raw, env).value;
    assert Process(s, raw, app, env) == Apply(s.(seen := s.seen + {tx.id}), Classify(tx, app, env));
  }

  /**
   * A payout from the app is always recorded; it ends the round when its
   * round is the current one or later, and then clears the pot and entries.
   */
  lemma PayoutStep(s: State, raw: Json, app: string, env: Env)
    requires Gate(raw, env).Some? && Gate(raw, env).value.id !in s.seen
    requires Classify(Gate(raw, env).value, app, env).Payout?
    ensures var a := Classify(Gate(raw, env).value, app, env);
      var round := if a.memoRound.Some? then a.memoRound.value else s.roundNumber;
      var r := Process(s, raw, app, env);
      && r.pastRounds == s.pastRounds + [PastRound(round, a.winner, a.amount, a.ts, a.txId)]
      && (round >= s.roundNumber ==> (r.roundNumber == round + 1 && r.potBalance == 0
            && r.entries == [] && r.lastSender.None? && r.lastEntryTs.None?))
      && (round < s.roundNumber ==> (r.roundNumber == s.roundNumber && r.potBalance == s.potBalance
            && r.entries == s.entries && r.lastSender == s.lastSender && r.lastEntryTs == s.lastEntryTs))
  {
    var tx := Gate(raw, env).value;
    assert Process(s, raw, app, env) == Apply(s.(seen := s.seen + {tx.id}), Classify(tx, app, env));
  }

  /** The round number never decreases, and past rounds are only ever appended. */
  lemma {:induction false} RoundNeverDecreases(s: State, txs: seq<Json>, app: string, env: Env)
    ensures ProcessAll(s, txs, app, env).roundNumber >= s.roundNumber
    ensures |ProcessAll(s, txs, app, env).pastRounds| >= |s.pastRounds|
    ensures ProcessAll(s, txs, app, env).pastRounds[..|s.pastRounds|] == s.pastRounds
    decreases |txs|
  {
    if txs != [] {
      var s1 := Process(s, txs[0], app, env);
      ProcessRounds(s, txs[0], app, env);
      RoundNeverDecreases(s1, txs[1..], app, env);
    }
  }

  lemma ProcessRounds(s: State, raw: Json, app: string, env: Env)
    ensures var r := Process(s, raw, app, env);
      r.roundNumber >= s.roundNumber && |r.pastRounds| >= |s.pastRounds| && r.pastRounds[..|s.pastRounds|] == s.pastRounds
  {
    var t := Gate(raw, env);
    if t.Some? && t.value.id !in s.seen {
      var s1 := s.(seen := s.seen + {t.value.id});
      var a := Classify(t.value, app, env);
      assert Process(s, raw, app, env) == Apply(s1, a);
      ApplyRounds(s1, a);
    } else {
      assert Process(s, raw, app, env) == s;
    }
  }

  lemma ApplyRounds(s: State, a: Action)
    ensures var r := Apply(s, a);
      r.roundNumber >= s.roundNumber && |r.pastRounds| >= |s.pastRounds| && r.pastRounds[..|s.pastRounds|] == s.pastRounds
  {
    if a.Payout? {
      var round := if a.memoRound.Some? then a.memoRound.value else s.roundNumber;
      var ps := s.pastRounds + [PastRound(round, a.winner, a.amount, a.ts, a.txId)];
      assert ps[..|s.pastRounds|] == s.pastRounds;
    }
  }

  /** Every id that was seen stays seen. */
  lemma {:induction false} SeenGrows(s: State, txs: seq<Json>, app: string, env: Env)
    ensures s.seen <= ProcessAll(s, txs, app, env).seen
    decreases |txs|
  {
    if txs != [] {
      var s1 := Process(s, txs[0], app, env);
      ProcessSeen(s, txs[0], app, env);
      SeenGrows(s1, txs[1..], app, env);
    }
  }

  lemma ProcessSeen(s: State, raw: Json, app: string, env: Env)
    ensures s.seen <= Process(s, raw, app, env).seen
  {
    var t := Gate(raw, env);
    if t.Some? && t.value.id !in s.seen {
      var s1 := s.(seen := s.seen + {t.value.id});
      var a := Classify(t.value, app, env);
      assert Process(s, raw, app, env) == Apply(s1, a);
      ApplyFrame(s1, a);
    }
  }

  // ------------------------------------------------------------------ timer and response

  datatype Response = Response(
    roundNumber: int,
    potBalance: int,
    lastSender: Option<Json>,
    lastEntryTs: Option<int>,
    timerDurationMs: int,
    timeRemainingMs: Option<int>,
    timerExpired: bool,
    entries: seq<Entry>,
    pastRounds: seq<PastRound>,
    payoutInProgress: bool,
    appPubkey: string,
    usernames: seq<(Json, string)>)

  /** `!state.lastEntryTs`: null and 0 both count as no entry. */
  predicate NoEntryTime(t: Option<int>)
  {
    t.None? || t.value == 0
  }

  /** `getTimeRemaining` for a timer of `duration` ms. */
  function TimeRemaining(lastEntryTs: Option<int>, duration: int, nowMs: int): (r: Option<int>)
    ensures r.None? <==> NoEntryTime(lastEntryTs)
    ensures r.Some? ==> r.value >= 0
    ensures r.Some? ==> (r.value == 0 <==> nowMs - lastEntryTs.value >= duration)
    ensures r.Some? && r.value > 0 ==> r.value + (nowMs - lastEntryTs.value) == duration
  {
    if NoEntryTime(lastEntryTs) then None
    else
      var left := duration - (nowMs - lastEntryTs.value);
      Some(if left < 0 then 0 else left)
  }

  /** The newest `n` items, newest first (`slice(-n).reverse()`). */
  function NewestFirst<T>(s: seq<T>, n: nat): (r: seq<T>)
    ensures |r| == if |s| < n then |s| else n
    ensures forall i :: 0 <= i < |r| ==> r[i] == s[|s| - 1 - i]
  {
    Reverse(Last(s, n))
  }

  class Game {
    const appPubkey: string
    const timerDurationMs: int
    const localDev: bool

    var roundNumber: int
    var potBalance: int
    var lastSender: Option<Json>
    var lastEntryTs: Option<int>
    var entries: seq<Entry>
    var pastRounds: seq<PastRound>
    var payoutInProgress: bool
    var usernames: Entries<Json, NameTs>
    var seenTxIds: set<Json>
    var signerConfigured: bool

    /** The replayed part of the object, as a value. */
    function Snapshot(): State
      reads this
    {
      State(roundNumber, potBalance, lastSender, lastEntryTs, entries, pastRounds, usernames, seenTxIds)
    }

    /** `createLastOneWins(opts)`: a missing public key or duration takes its default. */
    constructor (appPubkeyOpt: string, timerDurationOpt: int, localDev: bool)
      ensures appPubkey == (if appPubkeyOpt == [] then DEFAULT_APP_PUBKEY else appPubkeyOpt)
      ensures timerDurationMs == (if timerDurationOpt == 0 then DEFAULT_TIMER_DURATION_MS else timerDurationOpt)
      ensures this.localDev == localDev
      ensures Snapshot() == Initial && !payoutInProgress && !signerConfigured
    {
      appPubkey := if appPubkeyOpt == [] then DEFAULT_APP_PUBKEY else appPubkeyOpt;
      timerDurationMs := if timerDurationOpt == 0 then DEFAULT_TIMER_DURATION_MS else timerDurationOpt;
      this.localDev := localDev;
      roundNumber := 1;
      potBalance := 0;
      lastSender := None;
      lastEntryTs := None;
      entries := [];
      pastRounds := [];
      payoutInProgress := false;
      usernames := [];
      seenTxIds := {};
      signerConfigured := false;
    }

    /** `getTimerDuration`: local development uses the two-minute mock timer. */
    function TimerDuration(): (d: int)
      reads this
      ensures localDev ==> d == MOCK_TIMER_DURATION_MS
      ensures !localDev ==> d == timerDurationMs
    {
      if localDev then MOCK_TIMER_DURATION_MS else timerDurationMs
    }

    function GetTimeRemaining(nowMs: int): Option<int>
      reads this
    {
      TimeRemaining(lastEntryTs, TimerDuration(), nowMs)
    }

    /** `processTransaction`, updating the fields in place. */
    method ProcessTransaction(raw: Json, env: Env)
      modifies this
      ensures Snapshot() == Process(old(Snapshot()), raw, appPubkey, env)
      ensures payoutInProgress == old(payoutInProgress) && signerConfigured == old(signerConfigured)
    {
      var t := Gate(raw, env);
      if t.None? {
        return;
      }
      var tx := t.value;
      if tx.id in seenTxIds {
        return;
      }
      seenTxIds := seenTxIds + {tx.id};
      ApplyAction(Classify(tx, appPubkey, env));
    }

    /** The state change one fresh transaction asks for. */
    method ApplyAction(action: Action)
      modifies this
      ensures Snapshot() == Apply(old(Snapshot()), action)
      ensures payoutInProgress == old(payoutInProgress) && signerConfigured == old(signerConfigured)
    {
      match action
      case Ignore =>
      case SetName(from, name, ts) =>
        var prev := Find(usernames, from);
        if prev.None? || ts >= prev.value.ts {
          usernames := Put(usernames, from, NameTs(name, ts));
        }
      case AddEntry(e) =>
        potBalance := potBalance + e.amount;
        lastSender := Some(e.from);
        lastEntryTs := Some(e.ts);
        entries := entries + [e];
      case Payout(memoRound, winner, amount, ts, txId) =>
        var round := if memoRound.Some? then memoRound.value else roundNumber;
        pastRounds := pastRounds + [PastRound(round, winner, amount, ts, txId)];
        if round >= roundNumber {
          roundNumber := round + 1;
          potBalance := 0;
          lastSender := None;
          lastEntryTs := None;
          entries := [];
        }
    }

    /**
     * The guard of `checkPayout`: nothing happens while a payout is in
     * progress, without a last sender or entry time, or while time remains.
     * Otherwise the payout is marked in progress and its winner, amount and
     * round are taken from the state.
     */
    method CheckPayout(nowMs: int) returns (payout: Option<(Json, int, int)>)
      modifies this`payoutInProgress
      ensures payout.None? <==> (old(payoutInProgress) || lastSender.None? || !Truthy(lastSender.value)
        || NoEntryTime(lastEntryTs) || GetTimeRemaining(nowMs).value > 0)
      ensures payout.None? ==> payoutInProgress == old(payoutInProgress)
      ensures payout.Some? ==> payoutInProgress && payout.value == (lastSender.value, potBalance, roundNumber)
      ensures payout.Some? ==> GetTimeRemaining(nowMs) == Some(0)
    {
      if payoutInProgress {
        return None;
      }
      if lastSender.None? || !Truthy(lastSender.value) || NoEntryTime(lastEntryTs) {
        return None;
      }
      if GetTimeRemaining(nowMs).value > 0 {
        return None;
      }
      payoutInProgress := true;
      payout := Some((lastSender.value, potBalance, roundNumber));
    }

    /**
     * The end of `checkPayout`. The signer is configured once; when that
     * fails nothing is sent. When the payout was sent (`sent`, after the one
     * retry), the synthetic payout transaction is processed like any other.
     * The in-progress flag is cleared on every path.
     */
    method FinishPayout(signerOk: bool, sent: bool, payoutTx: Json, env: Env)
      requires payoutInProgress
      modifies this
      ensures signerConfigured == (old(signerConfigured) || signerOk)
      ensures !payoutInProgress
      ensures Snapshot() == if signerConfigured && sent then Process(old(Snapshot()), payoutTx, appPubkey, env)
        else old(Snapshot())
    {
      if !signerConfigured {
        signerConfigured := signerOk;
        if !signerConfigured {
          payoutInProgress := false;
          return;
        }
      }
      if sent {
        ProcessTransaction(payoutTx, env);
      }
      payoutInProgress := false;
    }

    /**
     * The local-development end of `checkPayout`: the injected payout
     * transaction is processed at once, without a signer, and the
     * in-progress flag is cleared.
     */
    method FinishMockPayout(payoutTx: Json, env: Env)
      requires payoutInProgress
      modifies this
      ensures !payoutInProgress && signerConfigured == old(signerConfigured)
      ensures Snapshot() == Process(old(Snapshot()), payoutTx, appPubkey, env)
    {
      ProcessTransaction(payoutTx, env);
      payoutInProgress := false;
    }

    /** `getStateResponse`: the newest 50 entries and newest 20 rounds, newest first. */
    function StateResponse(nowMs: int): (r: Response)
      reads this
      ensures |r.entries| == if |entries| < ENTRIES_SHOWN then |entries| else ENTRIES_SHOWN
      ensures forall i :: 0 <= i < |r.entries| ==> r.entries[i] == entries[|entries| - 1 - i]
      ensures |r.pastRounds| == if |pastRounds| < ROUNDS_SHOWN then |pastRounds| else ROUNDS_SHOWN
      ensures forall i :: 0 <= i < |r.pastRounds| ==> r.pastRounds[i] == pastRounds[|pastRounds| - 1 - i]
      ensures r.timerExpired <==> (lastEntryTs.Some? && lastEntryTs.value != 0
        && nowMs - lastEntryTs.value >= TimerDuration())
      ensures r.timeRemainingMs == GetTimeRemaining(nowMs)
    {
      var left := GetTimeRemaining(nowMs);
      var names := usernames;
      Response(roundNumber, potBalance, lastSender, lastEntryTs, TimerDuration(), left,
        lastEntryTs.Some? && left == Some(0),
        NewestFirst(entries, ENTRIES_SHOWN), NewestFirst(pastRounds, ROUNDS_SHOWN),
        payoutInProgress, appPubkey,
        seq(|names|, i requires 0 <= i < |names| => (names[i].0, names[i].1.name)))
    }
  }
}
