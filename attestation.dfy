/**
 * Score attestations shared by the merge-master and snake-arena servers:
 * the canonical JSON text that is signed (`canonicalize`, whose object
 * keys are sorted so that the text does not depend on the order in which
 * keys were inserted), and the check of an attested memo against its
 * sender and its signature over a fixed list of fields. The keyed HMAC
 * and JSON string quoting are parameters.
 */
module Attestation {
  import opened Options
  import opened JsValues

  // ---------------------------------------------------------------------
  // Key order: the default `Array.prototype.sort` on strings
  // ---------------------------------------------------------------------

  /** `a` sorts strictly before `b`, character by character; a proper prefix sorts first. */
  predicate Below(a: string, b: string)
    decreases |a|
  {
    if a == [] then b != []
    else if b == [] then false
    else if a[0] != b[0] then a[0] < b[0]
    else Below(a[1..], b[1..])
  }

  lemma {:induction false} BelowIrreflexive(a: string)
    ensures !Below(a, a)
    decreases |a|
  {
    if a != [] {
      BelowIrreflexive(a[1..]);
    }
  }

  lemma {:induction false} BelowTransitive(a: string, b: string, c: string)
    requires Below(a, b) && Below(b, c)
    ensures Below(a, c)
    decreases |a|
  {
    if a != [] && a[0] == b[0] && b[0] == c[0] {
      BelowTransitive(a[1..], b[1..], c[1..]);
    }
  }

  lemma {:induction false} BelowTotal(a: string, b: string)
    requires a != b
    ensures Below(a, b) || Below(b, a)
    decreases |a|
  {
    if a != [] && b != [] && a[0] == b[0] {
      assert a == [a[0]] + a[1..] && b == [b[0]] + b[1..];
      BelowTotal(a[1..], b[1..]);
    }
  }

  lemma BelowAsymmetric(a: string, b: string)
    requires Below(a, b)
    ensures !Below(b, a)
  {
    if Below(b, a) {
      BelowTransitive(a, b, a);
      BelowIrreflexive(a);
    }
  }

  predicate Distinct(s: seq<string>)
  {
    forall i, j :: 0 <= i < j < |s| ==> s[i] != s[j]
  }

  predicate StrictlySorted(s: seq<string>)
  {
    forall i, j :: 0 <= i < j < |s| ==> Below(s[i], s[j])
  }

  /** Insert `k` before the first element that does not sort before it. */
  function InsertKey(k: string, s: seq<string>): (r: seq<string>)
    ensures multiset(r) == multiset(s) + multiset{k}
    decreases |s|
  {
    if s == [] then [k]
    else if Below(s[0], k) then
      assert s == [s[0]] + s[1..];
      [s[0]] + InsertKey(k, s[1..])
    else [k] + s
  }

  lemma {:induction false} InsertKeySorted(k: string, s: seq<string>)
    requires StrictlySorted(s) && k !in s
    ensures StrictlySorted(InsertKey(k, s))
    decreases |s|
  {
    if s != [] {
      if Below(s[0], k) {
        InsertKeySorted(k, s[1..]);
        var r := InsertKey(k, s);
        forall j | 0 < j < |r|
          ensures Below(r[0], r[j])
        {
          assert r[j] in multiset(r);
          assert r[j] == k || r[j] in s[1..];
        }
      } else {
        BelowTotal(s[0], k);
        forall j | 0 <= j < |s|
          ensures Below(k, s[j])
        {
          if j > 0 {
            BelowTransitive(k, s[0], s[j]);
          }
        }
      }
    }
  }

  /** `keys.sort()` */
  function SortKeys(ks: seq<string>): (r: seq<string>)
    ensures multiset(r) == multiset(ks)
    decreases |ks|
  {
    if ks == [] then []
    else
      assert ks == [ks[0]] + ks[1..];
      InsertKey(ks[0], SortKeys(ks[1..]))
  }

  lemma {:induction false} SortKeysSorted(ks: seq<string>)
    requires Distinct(ks)
    ensures StrictlySorted(SortKeys(ks))
    decreases |ks|
  {
    if ks != [] {
      SortKeysSorted(ks[1..]);
      assert ks[0] !in multiset(ks[1..]);
      InsertKeySorted(ks[0], SortKeys(ks[1..]));
    }
  }

  lemma SortKeysMembers(ks: seq<string>)
    ensures forall k :: k in SortKeys(ks) <==> k in ks
  {
    var r := SortKeys(ks);
    forall k
      ensures k in r <==> k in ks
    {
      assert k in r <==> k in multiset(r);
      assert k in ks <==> k in multiset(ks);
    }
  }

  /** Two strictly sorted sequences with the same elements are the same sequence. */
  lemma {:induction false} SortedUnique(a: seq<string>, b: seq<string>)
    requires StrictlySorted(a) && StrictlySorted(b)
    requires forall k :: k in a <==> k in b
    ensures a == b
    decreases |a|
  {
    if b != [] {
      assert b[0] in a;
    }
    if a != [] {
      assert a[0] in b;
      assert b != [];
      assert b[0] in a;
      if a[0] != b[0] {
        var i :| 0 <= i < |b| && b[i] == a[0];
        var j :| 0 <= j < |a| && a[j] == b[0];
        assert Below(b[0], a[0]) && Below(a[0], b[0]);
        BelowAsymmetric(a[0], b[0]);
      }
      forall k
        ensures k in a[1..] <==> k in b[1..]
      {
        if k in a[1..] {
          var i :| 1 <= i < |a| && a[i] == k;
          assert Below(a[0], a[i]);
          BelowIrreflexive(k);
          assert k in a;
          var j :| 0 <= j < |b| && b[j] == k;
          assert j != 0;
          assert b[1..][j - 1] == k;
        }
        if k in b[1..] {
          var i :| 1 <= i < |b| && b[i] == k;
          assert Below(b[0], b[i]);
          BelowIrreflexive(k);
          assert k in b;
          var j :| 0 <= j < |a| && a[j] == k;
          assert j != 0;
          assert a[1..][j - 1] == k;
        }
      }
      SortedUnique(a[1..], b[1..]);
    }
  }

  // ---------------------------------------------------------------------
  // Objects
  // ---------------------------------------------------------------------

  /** The property names of an object. */
  ghost function Names(fields: seq<(string, Json)>): set<string>
  {
    set i | 0 <= i < |fields| :: fields[i].0
  }

  /** `Object.keys(value)`: each name once. */
  function KeysOf(fields: seq<(string, Json)>): (r: seq<string>)
    ensures Distinct(r)
    ensures forall k :: k in r <==> k in Names(fields)
    decreases |fields|
  {
    if fields == [] then []
    else
      var init := fields[..|fields| - 1];
      var ks := KeysOf(init);
      var k := fields[|fields| - 1].0;
      assert forall j :: 0 <= j < |init| ==> init[j] == fields[j];
      assert Names(fields) == Names(init) + {k};
      if k in ks then ks else ks + [k]
  }

  /** The position of the field `value[key]` reads: the last one named `key`, or -1. */
  function LastIndex(fields: seq<(string, Json)>, key: string): (r: int)
    ensures -1 <= r < |fields|
    ensures r >= 0 ==> fields[r].0 == key && fields[r].1 == Lookup(fields, key)
    ensures r < 0 ==> key !in Names(fields) && Lookup(fields, key) == Undefined
    decreases |fields|
  {
    if fields == [] then -1
    else if fields[|fields| - 1].0 == key then |fields| - 1
    else
      var init := fields[..|fields| - 1];
      assert forall j :: 0 <= j < |init| ==> init[j] == fields[j];
      LastIndex(init, key)
  }

  /** `parts.join(sep)` */
  function Join(parts: seq<string>, sep: string): string
    decreases |parts|
  {
    if parts == [] then ""
    else if |parts| == 1 then parts[0]
    else parts[0] + sep + Join(parts[1..], sep)
  }

  /**
   * `canonicalize`: JSON text with object keys sorted. `quote` is
   * `JSON.stringify` on a string. Missing values, `null` and non-finite
   * numbers become `null`.
   */
  function Canonicalize(v: Json, quote: string -> string): (r: string)
    ensures v.Null? || v.Undefined? || (v.Num? && !v.n.Int?) ==> r == "null"
    ensures v.Bool? ==> r == (if v.b then "true" else "false")
    ensures v.Str? ==> r == quote(v.s)
    decreases v
  {
    match v
    case Undefined => "null"
    case Null => "null"
    case Bool(b) => if b then "true" else "false"
    case Num(n) => if n.Int? then IntToString(n.v) else "null"
    case Str(s) => quote(s)
    case Arr(items) =>
      "[" + Join(seq(|items|, i requires 0 <= i < |items| => Canonicalize(items[i], quote)), ",") + "]"
    case Obj(fields) =>
      var keys := SortKeys(KeysOf(fields));
      "{" + Join(seq(|keys|, i requires 0 <= i < |keys| =>
        var j := LastIndex(fields, keys[i]);
        quote(keys[i]) + ":" + (if j < 0 then "null" else Canonicalize(fields[j].1, quote))), ",") + "}"
  }

  /** The text of one object entry, `"key":value`, as `canonicalize` writes it. */
  function EntryText(fields: seq<(string, Json)>, key: string, quote: string -> string): string
  {
    quote(key) + ":" + Canonicalize(Lookup(fields, key), quote)
  }

  /** The entries for `keys`, each reading `value[key]`, joined inside braces. */
  function ObjectText(fields: seq<(string, Json)>, keys: seq<string>, quote: string -> string): string
  {
    "{" + Join(seq(|keys|, i requires 0 <= i < |keys| => EntryText(fields, keys[i], quote)), ",") + "}"
  }

  /** An object's text is its entries, in sorted key order. */
  lemma CanonicalObject(fields: seq<(string, Json)>, quote: string -> string)
    ensures Canonicalize(Obj(fields), quote) == ObjectText(fields, SortKeys(KeysOf(fields)), quote)
  {
    var keys := SortKeys(KeysOf(fields));
    var a := seq(|keys|, i requires 0 <= i < |keys| =>
      var j := LastIndex(fields, keys[i]);
      quote(keys[i]) + ":" + (if j < 0 then "null" else Canonicalize(fields[j].1, quote)));
    var b := seq(|keys|, i requires 0 <= i < |keys| => EntryText(fields, keys[i], quote));
    assert Canonicalize(Obj(fields), quote) == "{" + Join(a, ",") + "}";
    assert ObjectText(fields, keys, quote) == "{" + Join(b, ",") + "}";
    forall i | 0 <= i < |keys|
      ensures a[i] == b[i]
    {
      EntryTextOfLastIndex(fields, keys[i], quote);
    }
    assert a == b;
  }

  /** The entry `canonicalize` writes at the last field of a key is that key's entry text. */
  lemma EntryTextOfLastIndex(fields: seq<(string, Json)>, key: string, quote: string -> string)
    ensures var j := LastIndex(fields, key);
      quote(key) + ":" + (if j < 0 then "null" else Canonicalize(fields[j].1, quote)) == EntryText(fields, key, quote)
  {
  }

  lemma ObjectTextAgrees(f: seq<(string, Json)>, g: seq<(string, Json)>, keys: seq<string>, quote: string -> string)
    requires forall i :: 0 <= i < |keys| ==> Lookup(f, keys[i]) == Lookup(g, keys[i])
    ensures ObjectText(f, keys, quote) == ObjectText(g, keys, quote)
  {
    var ef := seq(|keys|, i requires 0 <= i < |keys| => EntryText(f, keys[i], quote));
    var eg := seq(|keys|, i requires 0 <= i < |keys| => EntryText(g, keys[i], quote));
    assert ef == eg;
  }

  /** The sorted key list depends only on the set of names. */
  lemma SortedKeysAgree(f: seq<(string, Json)>, g: seq<(string, Json)>)
    requires Names(f) == Names(g)
    ensures SortKeys(KeysOf(f)) == SortKeys(KeysOf(g))
    ensures forall k :: k in SortKeys(KeysOf(f)) ==> k in Names(f)
  {
    var kf := SortKeys(KeysOf(f));
    var kg := SortKeys(KeysOf(g));
    SortKeysSorted(KeysOf(f));
    SortKeysSorted(KeysOf(g));
    SortKeysMembers(KeysOf(f));
    SortKeysMembers(KeysOf(g));
    SortedUnique(kf, kg);
  }

  /**
   * The canonical text of an object depends only on which keys it has and
   * what each key reads, not on the order the keys were inserted in.
   */
  lemma CanonicalizeOrderIndependent(f: seq<(string, Json)>, g: seq<(string, Json)>, quote: string -> string)
    requires Names(f) == Names(g)
    requires forall k :: k in Names(f) ==> Lookup(f, k) == Lookup(g, k)
    ensures Canonicalize(Obj(f), quote) == Canonicalize(Obj(g), quote)
  {
    SortedKeysAgree(f, g);
    ObjectTextAgrees(f, g, SortKeys(KeysOf(f)), quote);
    CanonicalObject(f, quote);
    CanonicalObject(g, quote);
  }

  lemma {:induction false} LookupConcat(f: seq<(string, Json)>, g: seq<(string, Json)>, k: string)
    ensures Lookup(f + g, k) == if k in Names(g) then Lookup(g, k) else Lookup(f, k)
    decreases |g|
  {
    if g != [] {
      var init := g[..|g| - 1];
      assert (f + g)[..|f + g| - 1] == f + init;
      assert forall j :: 0 <= j < |init| ==> init[j] == g[j];
      assert Names(g) == Names(init) + {g[|g| - 1].0};
      if g[|g| - 1].0 != k {
        LookupConcat(f, init, k);
      }
    } else {
      assert f + g == f;
    }
  }

  /** The same two groups of keys, inserted in either order, give the same text. */
  lemma InsertionOrderIrrelevant(f: seq<(string, Json)>, g: seq<(string, Json)>, quote: string -> string)
    requires Names(f) !! Names(g)
    ensures Canonicalize(Obj(f + g), quote) == Canonicalize(Obj(g + f), quote)
  {
    forall k
      ensures k in Names(f + g) <==> k in Names(g + f)
    {
      if k in Names(f + g) {
        var i :| 0 <= i < |f + g| && (f + g)[i].0 == k;
        if i < |f| {
          assert (g + f)[|g| + i] == f[i];
        } else {
          assert (g + f)[i - |f|] == g[i - |f|];
        }
      }
      if k in Names(g + f) {
        var i :| 0 <= i < |g + f| && (g + f)[i].0 == k;
        if i < |g| {
          assert (f + g)[|f| + i] == g[i];
        } else {
          assert (f + g)[i - |g|] == f[i - |g|];
        }
      }
    }
    forall k | k in Names(f + g)
      ensures Lookup(f + g, k) == Lookup(g + f, k)
    {
      LookupConcat(f, g, k);
      LookupConcat(g, f, k);
    }
    CanonicalizeOrderIndependent(f + g, g + f, quote);
  }

  // ---------------------------------------------------------------------
  // Attested memos
  // ---------------------------------------------------------------------

  /** `{ v: memo.v, app: memo.app, ... }`: the listed properties of the memo, in the listed order. */
  function SignedFields(memo: Json, names: seq<string>): (r: seq<(string, Json)>)
    ensures |r| == |names| && forall i :: 0 <= i < |names| ==> r[i] == (names[i], Get(memo, names[i]))
  {
    seq(|names|, i requires 0 <= i < |names| => (names[i], Get(memo, names[i])))
  }

  /** `signAttestation(fields)`: the keyed digest of the canonical text. */
  function Sign(fields: seq<(string, Json)>, hmac: string -> string, quote: string -> string): string
  {
    hmac(Canonicalize(Obj(fields), quote))
  }

  /**
   * `verifyAttestedMemo`: the memo names the app and `score_attested`, its
   * address is the sender, and its `sig` is the digest of the listed fields.
   */
  function VerifyAttested(memo: Json, sender: Json, app: string, names: seq<string>,
                          hmac: string -> string, quote: string -> string): (r: bool)
    ensures r ==> Get(memo, "app") == Str(app) && Get(memo, "type") == Str("score_attested")
    ensures r ==> Get(memo, "address") == sender
    ensures r ==> Get(memo, "sig") == Str(Sign(SignedFields(memo, names), hmac, quote))
  {
    && Truthy(memo)
    && Get(memo, "app") == Str(app) && Get(memo, "type") == Str("score_attested")
    && Get(memo, "address") == sender
    && Str(Sign(SignedFields(memo, names), hmac, quote)) == Get(memo, "sig")
  }

  /** Properties outside the list do not affect the verdict. */
  lemma OnlyListedFieldsMatter(m1: Json, m2: Json, sender: Json, app: string, names: seq<string>,
                               hmac: string -> string, quote: string -> string)
    requires Truthy(m1) == Truthy(m2)
    requires forall i :: 0 <= i < |names| ==> Get(m1, names[i]) == Get(m2, names[i])
    requires Get(m1, "app") == Get(m2, "app") && Get(m1, "type") == Get(m2, "type")
    requires Get(m1, "address") == Get(m2, "address") && Get(m1, "sig") == Get(m2, "sig")
    ensures VerifyAttested(m1, sender, app, names, hmac, quote) == VerifyAttested(m2, sender, app, names, hmac, quote)
  {
    var s1 := SignedFields(m1, names);
    var s2 := SignedFields(m2, names);
    assert forall i :: 0 <= i < |names| ==> s1[i] == s2[i];
    assert s1 == s2;
  }

  ghost predicate DistinctNames(fields: seq<(string, Json)>)
  {
    forall i, j :: 0 <= i < j < |fields| ==> fields[i].0 != fields[j].0
  }

  lemma {:induction false} LookupDistinct(fields: seq<(string, Json)>, i: int)
    requires DistinctNames(fields) && 0 <= i < |fields|
    ensures Lookup(fields, fields[i].0) == fields[i].1
    decreases |fields|
  {
    if i < |fields| - 1 {
      var init := fields[..|fields| - 1];
      assert init[i] == fields[i];
      LookupDistinct(init, i);
    }
  }

  /** The memo the attest endpoint returns: the fields, then their signature as `sig`. */
  function AttestedMemo(fields: seq<(string, Json)>, hmac: string -> string, quote: string -> string): (r: Json)
    ensures r.Obj? && |r.fields| == |fields| + 1 && r.fields[..|fields|] == fields
  {
    Obj(fields + [("sig", Str(Sign(fields, hmac, quote)))])
  }

  function NamesOf(fields: seq<(string, Json)>): (r: seq<string>)
    ensures |r| == |fields| && forall i :: 0 <= i < |fields| ==> r[i] == fields[i].0
  {
    seq(|fields|, i requires 0 <= i < |fields| => fields[i].0)
  }

  /**
   * Round trip: a memo the server attests, checked against the same list of
   * fields, verifies for the address it names.
   */
  lemma AttestedMemoVerifies(fields: seq<(string, Json)>, app: string, hmac: string -> string, quote: string -> string)
    requires DistinctNames(fields) && "sig" !in NamesOf(fields)
    requires Lookup(fields, "app") == Str(app) && Lookup(fields, "type") == Str("score_attested")
    ensures VerifyAttested(AttestedMemo(fields, hmac, quote), Lookup(fields, "address"), app, NamesOf(fields), hmac, quote)
  {
    var memo := AttestedMemo(fields, hmac, quote);
    AttestedLookups(fields, hmac, quote);
    SignedFieldsOfAttested(fields, hmac, quote);
    assert Get(memo, "app") == Str(app) && Get(memo, "type") == Str("score_attested");
    assert Get(memo, "address") == Lookup(fields, "address");
  }

  /** The attested memo reads as its fields everywhere but `sig`, which holds their signature. */
  lemma AttestedLookups(fields: seq<(string, Json)>, hmac: string -> string, quote: string -> string)
    ensures var memo := AttestedMemo(fields, hmac, quote);
      && Get(memo, "sig") == Str(Sign(fields, hmac, quote))
      && forall k :: k != "sig" ==> Get(memo, k) == Lookup(fields, k)
  {
    var all := fields + [("sig", Str(Sign(fields, hmac, quote)))];
    assert all[..|all| - 1] == fields;
  }

  /** Reading the listed fields back from the attested memo gives the fields. */
  lemma SignedFieldsOfAttested(fields: seq<(string, Json)>, hmac: string -> string, quote: string -> string)
    requires DistinctNames(fields) && "sig" !in NamesOf(fields)
    ensures SignedFields(AttestedMemo(fields, hmac, quote), NamesOf(fields)) == fields
  {
    var memo := AttestedMemo(fields, hmac, quote);
    var names := NamesOf(fields);
    AttestedLookups(fields, hmac, quote);
    forall i | 0 <= i < |fields|
      ensures SignedFields(memo, names)[i] == fields[i]
    {
      assert names[i] != "sig";
      LookupDistinct(fields, i);
    }
  }

}
